/** Filling a map in a loop: a later entry for a key replaces an earlier one. */
module LastWriter {
  import opened Wrappers

  function Collect<K, V>(entries: seq<Option<(K, V)>>): map<K, V> {
    if entries == [] then map[]
    else
      var m := Collect(entries[..|entries| - 1]);
      match entries[|entries| - 1]
      case None => m
      case Some((k, v)) => m[k := v]
  }

  ghost predicate Writes<K, V>(entries: seq<Option<(K, V)>>, i: int, k: K) {
    0 <= i < |entries| && entries[i].Some? && entries[i].value.0 == k
  }

  ghost predicate LastWrite<K, V>(entries: seq<Option<(K, V)>>, i: int, k: K) {
    Writes(entries, i, k) && forall j :: i < j < |entries| ==> !Writes(entries, j, k)
  }

  /** A key is present exactly when it was written, with the last value written. */
  lemma {:induction false} CollectExact<K, V>(entries: seq<Option<(K, V)>>, k: K)
    ensures k in Collect(entries) <==> exists i :: Writes(entries, i, k)
    ensures forall i :: LastWrite(entries, i, k) ==> k in Collect(entries) && Collect(entries)[k] == entries[i].value.1
    ensures k in Collect(entries) ==> exists i :: LastWrite(entries, i, k)
  {
    if entries != [] {
      var n := |entries| - 1;
      var front := entries[..n];
      CollectExact(front, k);
      forall i | 0 <= i < n ensures Writes(entries, i, k) <==> Writes(front, i, k) {}
      if Writes(entries, n, k) {
        assert LastWrite(entries, n, k);
      } else {
        forall i | 0 <= i < n ensures LastWrite(entries, i, k) <==> LastWrite(front, i, k) {}
      }
    }
  }

  lemma CollectSnoc<K, V>(entries: seq<Option<(K, V)>>, e: Option<(K, V)>)
    ensures Collect(entries + [e])
         == match e case None => Collect(entries) case Some((k, v)) => Collect(entries)[k := v]
  {}
}
