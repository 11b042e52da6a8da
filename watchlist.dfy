/** The watchlist store: the Room table `watchlist` with primary key `movieId`
    (data/local/db/doa/WatchlistDao.kt) and the local data source over it
    (data/local/datasource/MovieLocalDataSourceImpl.kt). The table is held as its rows in
    insertion order. */
module Watchlist {

  /** No movie id occurs twice: the primary-key constraint. */
  predicate NoDuplicates(rows: seq<int>) {
    forall i, j :: 0 <= i < j < |rows| ==> rows[i] != rows[j]
  }

  /** The rows other than the one with key `id`, in order. */
  function Without(rows: seq<int>, id: int): (r: seq<int>)
    ensures forall x :: x in r <==> x in rows && x != id
    ensures NoDuplicates(rows) ==> NoDuplicates(r)
    ensures id !in rows ==> r == rows
  {
    if rows == [] then []
    else
      var rest := Without(rows[1..], id);
      assert forall x :: x in rows <==> x == rows[0] || x in rows[1..];
      assert NoDuplicates(rows) ==> NoDuplicates(rows[1..]) && rows[0] !in rows[1..];
      if rows[0] == id then rest else [rows[0]] + rest
  }

  class WatchlistDao {
    var rows: seq<int>

    ghost predicate Valid()
      reads this
    {
      NoDuplicates(rows)
    }

    /** The movie ids on the watchlist. */
    function Ids(): set<int>
      reads this
    {
      set x | x in rows
    }

    constructor()
      ensures Valid() && rows == []
    {
      rows := [];
    }

    /** `insert(WatchlistEntry(movieId))` with `OnConflictStrategy.REPLACE`: an existing row
        with the same key is deleted and the new row inserted. */
    method Insert(movieId: int)
      requires Valid()
      modifies this
      ensures Valid()
      ensures rows == Without(old(rows), movieId) + [movieId]
      ensures Ids() == old(Ids()) + {movieId}
    {
      rows := Without(rows, movieId) + [movieId];
    }

    /** `DELETE FROM watchlist WHERE movieId = :id`. */
    method Delete(id: int)
      requires Valid()
      modifies this
      ensures Valid()
      ensures rows == Without(old(rows), id)
      ensures Ids() == old(Ids()) - {id}
    {
      rows := Without(rows, id);
    }

    /** `SELECT EXISTS(SELECT * FROM watchlist WHERE movieId = :id)`. */
    method Exists(id: int) returns (found: bool)
      ensures found <==> id in Ids()
    {
      found := id in rows;
    }
  }

  class MovieLocalDataSourceImpl {
    const dao: WatchlistDao

    ghost predicate Valid()
      reads this, dao
    {
      dao.Valid()
    }

    constructor(dao: WatchlistDao)
      ensures this.dao == dao
    {
      this.dao := dao;
    }

    method AddToWatchlist(movieId: int)
      requires Valid()
      modifies dao
      ensures Valid()
      ensures dao.Ids() == old(dao.Ids()) + {movieId}
    {
      dao.Insert(movieId);
    }

    method RemoveFromWatchlist(movieId: int)
      requires Valid()
      modifies dao
      ensures Valid()
      ensures dao.Ids() == old(dao.Ids()) - {movieId}
    {
      dao.Delete(movieId);
    }

    method IsOnWatchlist(movieId: int) returns (on: bool)
      ensures on <==> movieId in dao.Ids()
    {
      on := dao.Exists(movieId);
    }
  }

  /** A replacing insert keeps the key unique, adds exactly the new id, and repeating it
      leaves the table as the first insert left it. */
  lemma {:induction false} ReplaceKeepsOneRow(rows: seq<int>, id: int)
    requires NoDuplicates(rows)
    ensures var after := Without(rows, id) + [id];
      && NoDuplicates(after)
      && (forall x :: x in after <==> x in rows || x == id)
      && Without(after, id) + [id] == after
  {
    WithoutAppend(Without(rows, id), id);
  }

  lemma {:induction false} WithoutAppend(rows: seq<int>, id: int)
    requires id !in rows
    ensures Without(rows + [id], id) == rows
  {
    if rows == [] {
      assert [] + [id] == [id];
    } else {
      assert (rows + [id])[0] == rows[0];
      assert (rows + [id])[1..] == rows[1..] + [id];
      WithoutAppend(rows[1..], id);
      assert rows == [rows[0]] + rows[1..];
    }
  }
}
