/**
 * The transfer-history map: an ordered map from `u64` sequence numbers to
 * records, written only by inserting at key `len + 1`.  Generic in the
 * record type so that nothing here depends on what a record holds.
 */
module History {
  import opened Primitives

  /**
   * Every key lies in `1..|h|`.  With `|h|` distinct keys this means the keys
   * are exactly `1..|h|` (see `DenseKeysExact`): key 0 is never used and there
   * are no gaps.
   */
  ghost predicate Dense<R>(h: map<U64, R>) {
    |h| <= U64_MAX && forall k :: k in h ==> 1 <= k <= |h|
  }

  /** A set of numbers drawn from `1..m` has at most `m` elements. */
  lemma {:induction false} CardinalityBound(s: set<U64>, m: nat)
    requires m <= U64_MAX
    requires forall k :: k in s ==> 1 <= k <= m
    ensures |s| <= m
    decreases m
  {
    if m == 0 {
      assert s == {};
    } else {
      var s' := s - {m as U64};
      CardinalityBound(s', m - 1);
    }
  }

  /** On a dense history every sequence number `1..|h|` is in use. */
  lemma {:induction false} DenseKeysExact<R>(h: map<U64, R>)
    requires Dense(h)
    ensures forall k: U64 :: k in h <==> 1 <= k <= |h|
    decreases |h|
  {
    if |h| > 0 {
      var n: U64 := |h|;
      if n !in h {
        CardinalityBound(h.Keys, n - 1);
        assert false;
      }
      var h' := h - {n};
      assert |h'| == n - 1;
      DenseKeysExact(h');
      forall k: U64 | 1 <= k <= n ensures k in h {
        if k != n {
          assert k in h';
        }
      }
    }
  }

  /**
   * One append as the updates write it: read `len()`, then `insert(id + 1, rec)`.
   * The insert overwrites whatever is at that key; on a dense map there is nothing.
   */
  function Insert<R>(h: map<U64, R>, rec: R): (r: map<U64, R>)
    requires |h| < U64_MAX
    ensures |h| + 1 in r && r[|h| + 1] == rec
    ensures Dense(h) ==> |h| + 1 !in h
    ensures Dense(h) ==> |r| == |h| + 1 && Dense(r)
  {
    h[|h| + 1 := rec]
  }

  /** On a dense history an append overwrites nothing. */
  lemma InsertKeepsEntries<R>(h: map<U64, R>, rec: R)
    requires Dense(h) && |h| < U64_MAX
    ensures forall k :: k in h ==> k in Insert(h, rec) && Insert(h, rec)[k] == h[k]
  {
  }

  /** `n` appends of the same record, one after the other. */
  function InsertN<R>(h: map<U64, R>, rec: R, n: nat): (r: map<U64, R>)
    requires Dense(h) && |h| + n <= U64_MAX
    ensures Dense(r) && |r| == |h| + n
    decreases n
  {
    if n == 0 then h else Insert(InsertN(h, rec, n - 1), rec)
  }

  /**
   * `n` appends on a dense history keep every earlier entry and put `rec`
   * at each of the keys `|h| + 1 .. |h| + n`.
   */
  lemma {:induction false} InsertNEntries<R>(h: map<U64, R>, rec: R, n: nat)
    requires Dense(h) && |h| + n <= U64_MAX
    ensures forall k :: k in h ==> k in InsertN(h, rec, n) && InsertN(h, rec, n)[k] == h[k]
    ensures forall k: U64 :: |h| < k <= |h| + n ==> k in InsertN(h, rec, n) && InsertN(h, rec, n)[k] == rec
    decreases n
  {
    if n > 0 {
      InsertNEntries(h, rec, n - 1);
      InsertKeepsEntries(InsertN(h, rec, n - 1), rec);
    }
  }

  /** The records at keys `1..n`, in ascending key order. */
  function Prefix<R>(h: map<U64, R>, n: nat): (s: seq<R>)
    requires n <= U64_MAX
    requires forall k: U64 :: 1 <= k <= n ==> k in h
    ensures |s| == n
    ensures forall i :: 0 <= i < n ==> s[i] == h[i + 1]
  {
    if n == 0 then [] else Prefix(h, n - 1) + [h[n]]
  }

  /** The whole history in insertion order (ascending sequence number). */
  function Records<R>(h: map<U64, R>): (s: seq<R>)
    requires Dense(h)
    ensures |s| == |h|
    ensures forall i :: 0 <= i < |h| ==> i + 1 in h && s[i] == h[i + 1]
  {
    DenseKeysExact(h);
    Prefix(h, |h|)
  }

  /** `n` copies of `rec`. */
  function Repeat<R>(rec: R, n: nat): (s: seq<R>)
    ensures |s| == n && forall i :: 0 <= i < n ==> s[i] == rec
  {
    seq(n, _ => rec)
  }

  /** On a dense history an append is an append at the end of the record list. */
  lemma RecordsAfterInsert<R>(h: map<U64, R>, rec: R)
    requires Dense(h) && |h| < U64_MAX
    ensures Dense(Insert(h, rec))
    ensures Records(Insert(h, rec)) == Records(h) + [rec]
  {
  }

  /** `n` appends of `rec` add `n` copies of `rec` at the end of the record list. */
  lemma {:induction false} RecordsAfterInsertN<R>(h: map<U64, R>, rec: R, n: nat)
    requires Dense(h) && |h| + n <= U64_MAX
    ensures Records(InsertN(h, rec, n)) == Records(h) + Repeat(rec, n)
    decreases n
  {
    if n == 0 {
      assert Records(h) + Repeat(rec, 0) == Records(h);
    } else {
      var m := InsertN(h, rec, n - 1);
      RecordsAfterInsertN(h, rec, n - 1);
      RecordsAfterInsert(m, rec);
      assert Repeat(rec, n - 1) + [rec] == Repeat(rec, n);
    }
  }
}
