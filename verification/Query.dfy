/**
 Queries of the form ORDER BY time LIMIT n.
 */
module Query {

  /**
   `out` lists `limit` of the keys (all, if there are fewer), each once, oldest first, and
   leaves out no older key.
   */
  ghost predicate IsOldest<K(!new)>(times: map<K, int>, limit: nat, out: seq<K>) {
    && (forall i :: 0 <= i < |out| ==> out[i] in times)
    && (forall i, j :: 0 <= i < j < |out| ==> out[i] != out[j] && times[out[i]] <= times[out[j]])
    && (forall k, i :: k in times && k !in out && 0 <= i < |out| ==> times[out[i]] <= times[k])
    && |out| <= limit && (|out| < limit ==> forall k :: k in times ==> k in out)
  }

  method Earliest<K(!new, ==)>(times: map<K, int>) returns (k: K)
    requires times != map[]
    ensures k in times && forall l :: l in times ==> times[k] <= times[l]
  {
    k :| k in times;
    var rest := times.Keys - {k};
    while rest != {}
      invariant k in times && rest <= times.Keys
      invariant forall l :: l in times && l !in rest ==> times[k] <= times[l]
    {
      var l :| l in rest;
      if times[l] < times[k] {
        k := l;
      }
      rest := rest - {l};
    }
  }

  method Oldest<K(!new, ==)>(times: map<K, int>, limit: nat) returns (out: seq<K>)
    ensures IsOldest(times, limit, out)
  {
    out := [];
    var rest := times;
    while rest != map[] && |out| < limit
      invariant |out| <= limit
      invariant forall k :: k in rest ==> k in times && rest[k] == times[k] && k !in out
      invariant forall k :: k in times ==> k in rest || k in out
      invariant forall i :: 0 <= i < |out| ==> out[i] in times
      invariant forall i, j :: 0 <= i < j < |out| ==> out[i] != out[j] && times[out[i]] <= times[out[j]]
      invariant forall k, i :: k in rest && 0 <= i < |out| ==> times[out[i]] <= times[k]
    {
      var k := Earliest(rest);
      out := out + [k];
      rest := rest - {k};
    }
  }
}
