/** The running key-to-value snapshot both coordinators keep: every accepted
    payload is merged into it with `dict.update`, so keys are never dropped and
    each key holds the value of the latest payload that carried it. */
module Snapshot {
  import opened Json

  /** `after` is `before` overridden by `payload`: payload keys take payload
      values, every other key of `before` keeps its value, and nothing else
      appears. */
  ghost predicate Overrides(before: Object, payload: Object, after: Object) {
    && after.Keys == before.Keys + payload.Keys
    && (forall k :: k in payload ==> after[k] == payload[k])
    && (forall k :: k in before && k !in payload ==> after[k] == before[k])
  }

  /** `merged = dict(data or {}); merged.update(payload)`. */
  function Merge(before: Object, payload: Object): (after: Object)
    ensures Overrides(before, payload, after)
  {
    before + payload
  }

  /** The snapshot after merging the payloads `ps` in order into `base`. */
  function MergeAll(base: Object, ps: seq<Object>): Object
  {
    if |ps| == 0 then base else Merge(MergeAll(base, ps[..|ps| - 1]), ps[|ps| - 1])
  }

  /** Payload `i` is the last of `ps` that carries `k`. */
  ghost predicate LastCarrier(ps: seq<Object>, i: int, k: string) {
    && 0 <= i < |ps|
    && k in ps[i]
    && forall j :: i < j < |ps| ==> k !in ps[j]
  }

  /** `after` holds the latest observation of every key: a key is present iff the
      base or some payload had it; its value is that of the last payload carrying
      it, or the base value when no payload carries it. */
  ghost predicate LatestObservations(base: Object, ps: seq<Object>, after: Object) {
    && (forall k :: k in after <==> (k in base || exists i :: 0 <= i < |ps| && k in ps[i]))
    && (forall i, k :: LastCarrier(ps, i, k) ==> k in after && after[k] == ps[i][k])
    && (forall k :: k in base && (forall j :: 0 <= j < |ps| ==> k !in ps[j]) ==>
          k in after && after[k] == base[k])
  }

  /** Merging a payload a second time changes nothing. */
  lemma MergeIdempotent(before: Object, payload: Object)
    ensures Merge(Merge(before, payload), payload) == Merge(before, payload)
  {
  }

  /** A key is in the merged snapshot iff the base or some payload had it. */
  lemma {:induction false} MergeAllKeys(base: Object, ps: seq<Object>, k: string)
    ensures k in MergeAll(base, ps) <==> (k in base || exists i :: 0 <= i < |ps| && k in ps[i])
  {
    if |ps| > 0 {
      var n := |ps| - 1;
      var q := ps[..n];
      MergeAllKeys(base, q, k);
      if exists i :: 0 <= i < |ps| && k in ps[i] {
        var i :| 0 <= i < |ps| && k in ps[i];
        if i < n {
          assert k in q[i];
        }
      }
      if exists i :: 0 <= i < |q| && k in q[i] {
        var i :| 0 <= i < |q| && k in q[i];
        assert k in ps[i];
      }
    }
  }

  /** The value under a key is that of the last payload carrying it. */
  lemma {:induction false} MergeAllLastWins(base: Object, ps: seq<Object>, i: int, k: string)
    requires LastCarrier(ps, i, k)
    ensures k in MergeAll(base, ps) && MergeAll(base, ps)[k] == ps[i][k]
  {
    var n := |ps| - 1;
    if i < n {
      var q := ps[..n];
      assert LastCarrier(q, i, k);
      MergeAllLastWins(base, q, i, k);
    }
  }

  /** A key no payload carries keeps its base value. */
  lemma {:induction false} MergeAllKeepsUntouched(base: Object, ps: seq<Object>, k: string)
    requires k in base
    requires forall j :: 0 <= j < |ps| ==> k !in ps[j]
    ensures k in MergeAll(base, ps) && MergeAll(base, ps)[k] == base[k]
  {
    if |ps| > 0 {
      var n := |ps| - 1;
      var q := ps[..n];
      assert k !in ps[n];
      assert forall j :: 0 <= j < |q| ==> q[j] == ps[j];
      MergeAllKeepsUntouched(base, q, k);
    }
  }

  /** Merging in order keeps the latest observation of every key. */
  lemma MergeAllKeepsLatest(base: Object, ps: seq<Object>)
    ensures LatestObservations(base, ps, MergeAll(base, ps))
  {
    forall k ensures k in MergeAll(base, ps) <==> (k in base || exists i :: 0 <= i < |ps| && k in ps[i]) {
      MergeAllKeys(base, ps, k);
    }
    forall i, k | LastCarrier(ps, i, k) ensures k in MergeAll(base, ps) && MergeAll(base, ps)[k] == ps[i][k] {
      MergeAllLastWins(base, ps, i, k);
    }
    forall k | k in base && (forall j :: 0 <= j < |ps| ==> k !in ps[j])
      ensures k in MergeAll(base, ps) && MergeAll(base, ps)[k] == base[k]
    {
      MergeAllKeepsUntouched(base, ps, k);
    }
  }
}
