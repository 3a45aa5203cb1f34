/**
 * PostgreSQL `INSERT ... ON CONFLICT (key) DO UPDATE / DO NOTHING` over a table
 * with a UNIQUE key: the conflicting row is updated in place, or a inserted row is
 * appended. `DO NOTHING` is the identity update.
 */
module Upserts {
  import opened Wrappers
  import opened Seqs

  /** `UPDATE ... WHERE key = k`: the rows with key `k` take the update, the others stay. */
  function Updated<T, K(==)>(s: seq<T>, key: T -> K, k: K, update: T -> T): (r: seq<T>)
    ensures |r| == |s|
    ensures forall i :: 0 <= i < |s| ==> r[i] == if key(s[i]) == k then update(s[i]) else s[i]
  {
    if s == [] then []
    else [if key(s[0]) == k then update(s[0]) else s[0]] + Updated(s[1..], key, k, update)
  }

  function Upsert<T(!new), K(==)>(s: seq<T>, key: T -> K, k: K, update: T -> T, inserted: T): seq<T> {
    if RowWith(s, key, k).Some? then Updated(s, key, k, update) else s + [inserted]
  }

  /** No row appears twice: the UNIQUE constraint over all of a row's columns. */
  ghost predicate NoDuplicates<T>(s: seq<T>) {
    forall i, j :: 0 <= i < j < |s| ==> s[i] != s[j]
  }

  /** `INSERT ... ON CONFLICT DO NOTHING` on a table whose UNIQUE key is the whole row. */
  function InsertNew<T(==,!new)>(s: seq<T>, x: T): (r: seq<T>)
    ensures forall y :: y in r <==> y in s || y == x
    ensures x in s ==> r == s
    ensures x !in s ==> |r| == |s| + 1 && r[..|s|] == s
    ensures NoDuplicates(s) ==> NoDuplicates(r)
  {
    if x in s then s else s + [x]
  }

  /** The row with key `k` (`RETURNING ...`, or a lookup by a UNIQUE key). */
  function RowWith<T(!new), K(==)>(s: seq<T>, key: T -> K, k: K): (r: Option<T>)
    ensures r.Some? ==> r.value in s && key(r.value) == k
    ensures r.None? <==> forall x :: x in s ==> key(x) != k
  {
    Find(s, (x: T) => key(x) == k)
  }

  /** Under a UNIQUE key the lookup finds the one row there is. */
  lemma RowWithUnique<T(!new), K>(s: seq<T>, key: T -> K, i: nat)
    requires UniqueBy(s, key) && i < |s|
    ensures RowWith(s, key, key(s[i])) == Some(s[i])
  {
    var x := RowWith(s, key, key(s[i])).value;
    var j :| 0 <= j < |s| && s[j] == x;
    if j < i {
      assert key(s[j]) != key(s[i]);
    } else if i < j {
      assert key(s[i]) != key(s[j]);
    }
  }

  /**
   * `s1` is `s0` after the upsert, up to the order of its rows: the UNIQUE key
   * still holds, the key's row is the updated old row or `inserted`, and every
   * other key reads as before.
   */
  ghost predicate UpsertedFrom<T(!new), K(!new)>(s0: seq<T>, s1: seq<T>, key: T -> K, k: K, update: T -> T, inserted: T) {
    && UniqueBy(s1, key)
    && RowWith(s1, key, k) == Some(if RowWith(s0, key, k).Some? then update(RowWith(s0, key, k).value) else inserted)
    && (forall k2 :: k2 != k ==> RowWith(s1, key, k2) == RowWith(s0, key, k2))
  }

  /** Two tables that are both the upsert of the same table hold the same rows. */
  lemma UpsertedFromSameRows<T(!new), K(!new)>(s0: seq<T>, s1: seq<T>, s2: seq<T>, key: T -> K, k: K, update: T -> T, inserted: T)
    requires UpsertedFrom(s0, s1, key, k, update, inserted) && UpsertedFrom(s0, s2, key, k, update, inserted)
    ensures forall x :: x in s1 <==> x in s2
  {
    forall x | x in s1 ensures x in s2 {
      RowWithUnique(s1, key, IndexOf(s1, x));
    }
    forall x | x in s2 ensures x in s1 {
      RowWithUnique(s2, key, IndexOf(s2, x));
    }
  }

  /** Row by row: the old rows stay in place, the key's row updated; a new key appends `inserted`. */
  lemma UpsertShape<T(!new), K>(s: seq<T>, key: T -> K, k: K, update: T -> T, inserted: T)
    requires UniqueBy(s, key) && key(inserted) == k
    requires forall x :: key(update(x)) == key(x)
    ensures var r := Upsert(s, key, k, update, inserted);
      && UniqueBy(r, key)
      && |r| == (if RowWith(s, key, k).Some? then |s| else |s| + 1)
      && (forall i :: 0 <= i < |s| ==> r[i] == if key(s[i]) == k then update(s[i]) else s[i])
      && (RowWith(s, key, k).None? ==> r[|s|] == inserted)
  {
    var r := Upsert(s, key, k, update, inserted);
    if RowWith(s, key, k).Some? {
      assert forall j :: 0 <= j < |s| ==> key(r[j]) == key(s[j]);
    } else {
      assert r == s + [inserted];
      forall i, j | 0 <= i < j < |r| ensures key(r[i]) != key(r[j]) {
        if j == |s| {
          assert r[i] in s;
        }
      }
    }
  }

  /** The upsert's contract: the constraint holds, the key's row is updated or inserted, other keys read as before. */
  lemma UpsertRow<T(!new), K(!new)>(s: seq<T>, key: T -> K, k: K, update: T -> T, inserted: T)
    requires UniqueBy(s, key) && key(inserted) == k
    requires forall x :: key(update(x)) == key(x)
    ensures var r := Upsert(s, key, k, update, inserted);
      && UpsertedFrom(s, r, key, k, update, inserted)
      && (forall x :: x in s ==> (if key(x) == k then update(x) else x) in r)
      && (forall y :: y in r ==> y in s || y == inserted || exists x :: x in s && key(x) == k && y == update(x))
  {
    var r := Upsert(s, key, k, update, inserted);
    UpsertShape(s, key, k, update, inserted);
    var found := RowWith(s, key, k).Some?;
    var i := if found then IndexOf(s, RowWith(s, key, k).value) else |s|;
    RowWithUnique(r, key, i);
    forall k2 | k2 != k ensures RowWith(r, key, k2) == RowWith(s, key, k2) {
      if j :| 0 <= j < |s| && key(s[j]) == k2 {
        RowWithUnique(s, key, j);
        RowWithUnique(r, key, j);
      } else if found {
        assert forall y :: y in r ==> key(y) != k2;
      }
    }
    forall x | x in s ensures (if key(x) == k then update(x) else x) in r {
      var j := IndexOf(s, x);
      assert r[j] == if key(x) == k then update(x) else x;
    }
    forall y | y in r ensures y in s || y == inserted || exists x :: x in s && key(x) == k && y == update(x) {
      var j :| 0 <= j < |r| && r[j] == y;
      if j < |s| {
        assert s[j] in s;
      }
    }
  }

  /** Running the same upsert again changes nothing when the update is idempotent. */
  lemma UpsertTwice<T(!new), K>(s: seq<T>, key: T -> K, k: K, update: T -> T, inserted: T, inserted2: T)
    requires key(inserted) == k
    requires forall x :: key(update(x)) == key(x)
    requires forall x {:trigger update(update(x))} :: update(update(x)) == update(x)
    requires update(inserted) == inserted
    ensures Upsert(Upsert(s, key, k, update, inserted), key, k, update, inserted2) == Upsert(s, key, k, update, inserted)
  {
    var r := Upsert(s, key, k, update, inserted);
    var found := RowWith(s, key, k).Some?;
    if found {
      var i :| 0 <= i < |s| && s[i] == RowWith(s, key, k).value;
      assert r[i] == update(s[i]) && key(r[i]) == k;
    } else {
      assert r[|s|] == inserted;
    }
    assert RowWith(r, key, k).Some?;
    var r2 := Updated(r, key, k, update);
    forall i | 0 <= i < |r| ensures r2[i] == r[i] {
      if key(r[i]) == k {
        if found {
          assert r[i] == update(s[i]);
          assert update(update(s[i])) == update(s[i]);
        }
      }
    }
    assert r2 == r;
  }

  /** Every old row is still found under its key, updated when it is the key's row. */
  lemma UpsertKeeps<T(!new), K>(s: seq<T>, key: T -> K, k: K, update: T -> T, inserted: T)
    requires UniqueBy(s, key) && key(inserted) == k
    requires forall x :: key(update(x)) == key(x)
    ensures forall x :: x in s ==>
      RowWith(Upsert(s, key, k, update, inserted), key, key(x)) == Some(if key(x) == k then update(x) else x)
  {
    UpsertShape(s, key, k, update, inserted);
    forall x | x in s
      ensures RowWith(Upsert(s, key, k, update, inserted), key, key(x)) == Some(if key(x) == k then update(x) else x)
    {
      RowWithUnique(Upsert(s, key, k, update, inserted), key, IndexOf(s, x));
    }
  }

  /** The position of a row that is in the table. */
  function IndexOf<T(==)>(s: seq<T>, x: T): (i: nat)
    requires x in s
    ensures i < |s| && s[i] == x
  {
    if s[0] == x then 0 else 1 + IndexOf(s[1..], x)
  }
}
