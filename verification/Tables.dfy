/** Keyed tables written by sequences of upserts or of conflict-ignoring inserts. */
module Tables {
  import opened Wrappers

  /** ON CONFLICT DO UPDATE for each pair in turn. */
  function PutAll<K, V>(table: map<K, V>, pairs: seq<(K, V)>): map<K, V> {
    if pairs == [] then table
    else
      var last := pairs[|pairs| - 1];
      PutAll(table, pairs[..|pairs| - 1])[last.0 := last.1]
  }

  /** ON CONFLICT DO NOTHING. */
  function InsertNew<K, V>(table: map<K, V>, key: K, value: V): map<K, V> {
    if key in table then table else table[key := value]
  }

  /** ON CONFLICT DO NOTHING for each pair in turn. */
  function InsertAll<K, V>(table: map<K, V>, pairs: seq<(K, V)>): map<K, V> {
    if pairs == [] then table
    else
      var last := pairs[|pairs| - 1];
      InsertNew(InsertAll(table, pairs[..|pairs| - 1]), last.0, last.1)
  }

  function FirstValue<K(==), V>(pairs: seq<(K, V)>, key: K): Option<V> {
    if pairs == [] then None
    else if pairs[0].0 == key then Some(pairs[0].1)
    else FirstValue(pairs[1..], key)
  }

  function LastValue<K(==), V>(pairs: seq<(K, V)>, key: K): Option<V> {
    if pairs == [] then None
    else if pairs[|pairs| - 1].0 == key then Some(pairs[|pairs| - 1].1)
    else LastValue(pairs[..|pairs| - 1], key)
  }

  lemma {:induction false} PutAllKeepsLast<K(!new), V>(table: map<K, V>, pairs: seq<(K, V)>)
    ensures var after := PutAll(table, pairs);
            && (forall p | p in pairs :: LastValue(pairs, p.0).Some?)
            && (forall k :: k in after <==> k in table || LastValue(pairs, k).Some?)
            && (forall k | k in after ::
                  after[k] == if LastValue(pairs, k).Some? then LastValue(pairs, k).value else table[k])
  {
    if pairs != [] {
      PutAllKeepsLast(table, pairs[..|pairs| - 1]);
      assert pairs == pairs[..|pairs| - 1] + [pairs[|pairs| - 1]];
    }
  }

  /** Writing the same rows again changes nothing. */
  lemma PutAllIdempotent<K(!new), V>(table: map<K, V>, pairs: seq<(K, V)>)
    ensures PutAll(PutAll(table, pairs), pairs) == PutAll(table, pairs)
  {
    var once := PutAll(table, pairs);
    PutAllKeepsLast(table, pairs);
    PutAllKeepsLast(once, pairs);
    var twice := PutAll(once, pairs);
    forall k | k in twice
      ensures k in once && twice[k] == once[k]
    {
      assert k in once <==> k in table || LastValue(pairs, k).Some?;
    }
    assert twice == once;
  }

  lemma PutOneMore<K, V>(table: map<K, V>, pairs: seq<(K, V)>, last: (K, V))
    ensures PutAll(table, pairs + [last]) == PutAll(table, pairs)[last.0 := last.1]
  {
    assert (pairs + [last])[..|pairs|] == pairs;
  }

  lemma {:induction false} PutAllAppend<K, V>(table: map<K, V>, front: seq<(K, V)>, back: seq<(K, V)>)
    ensures PutAll(table, front + back) == PutAll(PutAll(table, front), back)
  {
    if back == [] {
      assert front + back == front;
    } else {
      PutAllAppend(table, front, back[..|back| - 1]);
      assert (front + back)[..|front + back| - 1] == front + back[..|back| - 1];
    }
  }

  lemma {:induction false} FirstValueAppend<K, V>(pairs: seq<(K, V)>, last: (K, V), key: K)
    ensures FirstValue(pairs + [last], key) ==
            if FirstValue(pairs, key).Some? then FirstValue(pairs, key)
            else if last.0 == key then Some(last.1) else None
  {
    if pairs == [] {
      assert pairs + [last] == [last];
    } else {
      FirstValueAppend(pairs[1..], last, key);
      assert (pairs + [last])[1..] == pairs[1..] + [last];
    }
  }

  /** Conflict-ignoring inserts leave each new key with its first value. */
  lemma {:induction false} InsertAllKeepsFirst<K(!new), V>(table: map<K, V>, pairs: seq<(K, V)>)
    ensures var after := InsertAll(table, pairs);
            && (forall k :: k in after <==> k in table || FirstValue(pairs, k).Some?)
            && (forall k | k in after ::
                  after[k] == if k in table then table[k] else FirstValue(pairs, k).value)
  {
    if pairs != [] {
      var init, last := pairs[..|pairs| - 1], pairs[|pairs| - 1];
      InsertAllKeepsFirst(table, init);
      assert pairs == init + [last];
      var before, after := InsertAll(table, init), InsertAll(table, pairs);
      forall k: K
        ensures k in after <==> k in table || FirstValue(pairs, k).Some?
      {
        FirstValueAppend(init, last, k);
        assert k in before <==> k in table || FirstValue(init, k).Some?;
      }
      forall k | k in after
        ensures after[k] == if k in table then table[k] else FirstValue(pairs, k).value
      {
        FirstValueAppend(init, last, k);
        assert k in before <==> k in table || FirstValue(init, k).Some?;
      }
    }
  }

  lemma {:induction false} FirstValueListed<K, V>(pairs: seq<(K, V)>, key: K)
    ensures FirstValue(pairs, key).Some? <==> exists i :: 0 <= i < |pairs| && pairs[i].0 == key
  {
    if pairs != [] && pairs[0].0 != key {
      FirstValueListed(pairs[1..], key);
      if i :| 0 <= i < |pairs| && pairs[i].0 == key {
        assert pairs[1..][i - 1].0 == key;
      }
    }
  }
}
