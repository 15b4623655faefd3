/**
 * Customer reviews (`save_review`, `delete_review`): a review is keyed by the
 * customer, the airline, the flight number and the departure time; saving
 * replaces any review under the same key by deleting it and inserting anew.
 */
module Reviews {
  import opened Wrappers
  import opened Text

  /** The columns that identify a review. */
  datatype Key = Key(email: string, airline: string, flightNumber: string, departure: string)

  /** A row of the Review table; `created` is the database clock at insertion. */
  datatype Review = Review(key: Key, rating: int, comment: string, created: int)

  /** The ratings a review may carry. */
  predicate RatingOk(rating: int) {
    1 <= rating <= 5
  }

  /** No two rows share a key. */
  predicate UniqueKeys(rows: seq<Review>) {
    forall i, j :: 0 <= i < j < |rows| ==> rows[i].key != rows[j].key
  }

  /** The rows left by `DELETE ... WHERE` on `key`, in their order. */
  function Without(rows: seq<Review>, key: Key): (rest: seq<Review>)
    ensures |rest| <= |rows|
  {
    if rows == [] then []
    else if rows[0].key == key then Without(rows[1..], key)
    else [rows[0]] + Without(rows[1..], key)
  }

  /** The rows stored under `key`. */
  function Matching(rows: seq<Review>, key: Key): (ms: seq<Review>)
    ensures |ms| <= |rows|
  {
    if rows == [] then []
    else if rows[0].key == key then [rows[0]] + Matching(rows[1..], key)
    else Matching(rows[1..], key)
  }

  /** The table after a save of `r`: its key deleted, then `r` inserted. */
  function Upserted(rows: seq<Review>, r: Review): seq<Review> {
    Without(rows, r.key) + [r]
  }

  lemma {:induction false} WithoutAppend(rows: seq<Review>, r: Review, key: Key)
    ensures Without(rows + [r], key) == Without(rows, key) + (if r.key == key then [] else [r])
  {
    if rows == [] {
      assert rows + [r] == [r];
      assert Without([r], key) == (if r.key == key then [] else [r]) + Without([r][1..], key);
    } else {
      assert (rows + [r])[1..] == rows[1..] + [r];
      WithoutAppend(rows[1..], r, key);
    }
  }

  /** A row survives the delete iff it was there and has another key. */
  lemma {:induction false} WithoutMembers(rows: seq<Review>, key: Key, x: Review)
    ensures x in Without(rows, key) <==> x in rows && x.key != key
  {
    if rows != [] {
      WithoutMembers(rows[1..], key, x);
      assert rows == [rows[0]] + rows[1..];
    }
  }

  /** After the delete nothing is stored under `key`; other keys keep all their rows. */
  lemma {:induction false} WithoutMatching(rows: seq<Review>, key: Key, k: Key)
    ensures Matching(Without(rows, key), k) == if k == key then [] else Matching(rows, k)
  {
    if rows != [] {
      WithoutMatching(rows[1..], key, k);
      if rows[0].key != key {
        assert ([rows[0]] + Without(rows[1..], key))[1..] == Without(rows[1..], key);
      }
    }
  }

  lemma {:induction false} MatchingAppend(rows: seq<Review>, r: Review, k: Key)
    ensures Matching(rows + [r], k) == Matching(rows, k) + (if r.key == k then [r] else [])
  {
    if rows == [] {
      assert rows + [r] == [r];
      assert Matching([r], k) == (if r.key == k then [r] else []) + Matching([r][1..], k);
    } else {
      assert (rows + [r])[1..] == rows[1..] + [r];
      MatchingAppend(rows[1..], r, k);
    }
  }

  /** Deleting keeps keys unique. */
  lemma WithoutUnique(rows: seq<Review>, key: Key)
    requires UniqueKeys(rows)
    ensures UniqueKeys(Without(rows, key))
  {
    var rest := Without(rows, key);
    forall i, j | 0 <= i < j < |rest| ensures rest[i].key != rest[j].key {
      WithoutOrder(rows, key, i, j);
    }
  }

  /** Two rows of the delete's result come from two distinct rows of the table. */
  lemma {:induction false} WithoutOrder(rows: seq<Review>, key: Key, i: int, j: int)
    requires UniqueKeys(rows)
    requires 0 <= i < j < |Without(rows, key)|
    ensures Without(rows, key)[i].key != Without(rows, key)[j].key
  {
    var rest := Without(rows, key);
    assert UniqueKeys(rows[1..]);
    if rows[0].key == key {
      WithoutOrder(rows[1..], key, i, j);
    } else if i == 0 {
      assert rest[j] in Without(rows[1..], key);
      WithoutMembers(rows[1..], key, rest[j]);
      var m :| 0 <= m < |rows[1..]| && rows[1..][m] == rest[j];
      assert rows[m + 1] == rest[j];
    } else {
      WithoutOrder(rows[1..], key, i - 1, j - 1);
    }
  }

  /**
   * After a save exactly one review is stored under its key, the saved one;
   * every other key keeps the reviews it had; keys stay unique.
   */
  lemma SaveReplaces(rows: seq<Review>, r: Review)
    requires UniqueKeys(rows)
    ensures Matching(Upserted(rows, r), r.key) == [r]
    ensures forall k :: k != r.key ==> Matching(Upserted(rows, r), k) == Matching(rows, k)
    ensures UniqueKeys(Upserted(rows, r))
  {
    MatchingAppend(Without(rows, r.key), r, r.key);
    WithoutMatching(rows, r.key, r.key);
    assert [] + [r] == [r];
    forall k | k != r.key
      ensures Matching(Upserted(rows, r), k) == Matching(rows, k)
    {
      MatchingAppend(Without(rows, r.key), r, k);
      WithoutMatching(rows, r.key, k);
      assert Matching(rows, k) + [] == Matching(rows, k);
    }
    WithoutUnique(rows, r.key);
    forall x | x in Without(rows, r.key) ensures x.key != r.key {
      WithoutMembers(rows, r.key, x);
    }
  }

  /** After a save the table holds the saved review and the old rows under other keys, and nothing else. */
  lemma UpsertedMembers(rows: seq<Review>, r: Review, x: Review)
    ensures x in Upserted(rows, r) <==> x == r || (x in rows && x.key != r.key)
  {
    WithoutMembers(rows, r.key, x);
  }

  /** The Review table of the database. */
  class ReviewTable {
    var rows: seq<Review>

    predicate Valid()
      reads this
    {
      UniqueKeys(rows)
    }

    constructor()
      ensures rows == [] && Valid()
    {
      rows := [];
    }

    /** `DELETE FROM Review WHERE` the four key columns equal `key`. */
    method Delete(key: Key)
      modifies this
      requires Valid()
      ensures Valid()
      ensures rows == Without(old(rows), key)
    {
      WithoutUnique(rows, key);
      var all, kept: seq<Review> := rows, [];
      var i := 0;
      while i < |all|
        invariant 0 <= i <= |all|
        invariant kept == Without(all[..i], key)
      {
        WithoutAppend(all[..i], all[i], key);
        assert all[..i + 1] == all[..i] + [all[i]];
        if all[i].key != key {
          kept := kept + [all[i]];
        }
        i := i + 1;
      }
      assert all[..i] == all;
      rows := kept;
    }

    /** `INSERT INTO Review`: refused, leaving the table as it was, when the key is taken. */
    method Insert(r: Review) returns (ok: bool)
      modifies this
      requires Valid()
      ensures Valid()
      ensures ok <==> forall x :: x in old(rows) ==> x.key != r.key
      ensures rows == if ok then old(rows) + [r] else old(rows)
    {
      ok := true;
      var i := 0;
      while i < |rows|
        invariant 0 <= i <= |rows| && rows == old(rows)
        invariant ok <==> forall m :: 0 <= m < i ==> rows[m].key != r.key
      {
        if rows[i].key == r.key {
          ok := false;
        }
        i := i + 1;
      }
      if ok {
        rows := rows + [r];
      }
    }

    /** Delete then insert: the upsert of `save_review`. */
    method Upsert(r: Review)
      modifies this
      requires Valid()
      ensures Valid()
      ensures rows == Upserted(old(rows), r)
    {
      Delete(r.key);
      forall x | x in rows ensures x.key != r.key {
        WithoutMembers(old(rows), r.key, x);
      }
      var ok := Insert(r);
      assert ok;
    }

    /**
     * `save_review`: a rating outside 1..5 saves nothing; otherwise any review
     * under the key is deleted and the new one, with its comment stripped, inserted.
     */
    method Save(email: string, airline: string, flightNumber: string, departure: string,
                rating: int, comment: Option<string>, now: int) returns (saved: bool)
      modifies this
      requires Valid()
      ensures Valid()
      ensures saved <==> RatingOk(rating)
      ensures saved ==> rows == Upserted(old(rows), Review(Key(email, airline, flightNumber, departure),
                                                         rating, Strip(OrEmpty(comment)), now))
      ensures !saved ==> rows == old(rows)
    {
      if rating < 1 || rating > 5 {
        return false;
      }
      Upsert(Review(Key(email, airline, flightNumber, departure), rating, Strip(OrEmpty(comment)), now));
      saved := true;
    }
  }
}
