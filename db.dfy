/**
 * The SQLite database behind every handler: the `users` and `bookmarks` tables
 * with the columns and constraints of their CREATE TABLE statements, and the
 * queries the handlers run against them.
 */
module Db {
  import opened Wrappers

  /** A row of `users`: `id INTEGER PRIMARY KEY AUTOINCREMENT`, `email TEXT UNIQUE NOT NULL`, `password TEXT NOT NULL`. */
  datatype User = User(id: nat, email: string, password: string)

  /**
   * A row of `bookmarks`. `userId` and `url` are NOT NULL; `title`, `favicon` and
   * `summary` are nullable; `createdAt` is filled by `DEFAULT CURRENT_TIMESTAMP`.
   */
  datatype Bookmark = Bookmark(
    id: nat,
    userId: int,
    url: string,
    title: Option<string>,
    favicon: Option<string>,
    summary: Option<string>,
    createdAt: nat)

  predicate UserIdsAscending(users: seq<User>)
  {
    forall i, j :: 0 <= i < j < |users| ==> users[i].id < users[j].id
  }

  /** The UNIQUE constraint on `users.email`. */
  predicate EmailsDistinct(users: seq<User>)
  {
    forall i, j :: 0 <= i < j < |users| ==> users[i].email != users[j].email
  }

  predicate BookmarkIdsAscending(bookmarks: seq<Bookmark>)
  {
    forall i, j :: 0 <= i < j < |bookmarks| ==> bookmarks[i].id < bookmarks[j].id
  }

  /**
   * The database file. Each table exists once its CREATE TABLE has run; its rows
   * are kept in insertion order; the AUTOINCREMENT counters hold the next id to
   * hand out; `clock` is the server time that CURRENT_TIMESTAMP reads, in seconds.
   */
  class Store {
    var usersTable: bool
    var bookmarksTable: bool
    var users: seq<User>
    var bookmarks: seq<Bookmark>
    var nextUserId: nat
    var nextBookmarkId: nat
    var clock: nat

    ghost predicate Valid()
      reads this
    {
      && (!usersTable ==> users == [])
      && (!bookmarksTable ==> bookmarks == [])
      && 1 <= nextUserId && 1 <= nextBookmarkId
      && UserIdsAscending(users)
      && (forall u :: u in users ==> 1 <= u.id < nextUserId)
      && EmailsDistinct(users)
      && BookmarkIdsAscending(bookmarks)
      && (forall b :: b in bookmarks ==> 1 <= b.id < nextBookmarkId && b.createdAt <= clock)
    }

    /** Both CREATE TABLE statements have run. */
    predicate Ready()
      reads this
    {
      usersTable && bookmarksTable
    }

    /** `getDb()`: opens a database file that holds no tables yet. */
    constructor Open(now: nat)
      ensures Valid() && !usersTable && !bookmarksTable
      ensures users == [] && bookmarks == [] && nextUserId == 1 && nextBookmarkId == 1 && clock == now
    {
      usersTable, bookmarksTable := false, false;
      users, bookmarks := [], [];
      nextUserId, nextBookmarkId := 1, 1;
      clock := now;
    }

    /** `initializeDb()`: CREATE TABLE IF NOT EXISTS for `users`, then for `bookmarks`. */
    method InitializeDb()
      requires Valid()
      modifies this`usersTable, this`bookmarksTable
      ensures Valid() && Ready()
      ensures old(Ready()) ==> unchanged(this)
    {
      if !usersTable {
        usersTable := true;
      }
      if !bookmarksTable {
        bookmarksTable := true;
      }
    }

    /** Server time moves on; it never goes back. */
    method Tick(now: nat)
      requires Valid() && clock <= now
      modifies this`clock
      ensures Valid() && clock == now
    {
      clock := now;
    }

    /**
     * `INSERT INTO users (email, password) VALUES (?, ?)`. The UNIQUE constraint
     * rejects an email that is already stored; otherwise the row gets the next
     * AUTOINCREMENT id.
     */
    method InsertUser(email: string, password: string) returns (r: Option<User>)
      requires Valid() && usersTable
      modifies this`users, this`nextUserId
      ensures Valid()
      ensures UserByEmail(old(users), email).Some? ==> r.None? && unchanged(this)
      ensures UserByEmail(old(users), email).None? ==>
        && r == Some(User(old(nextUserId), email, password))
        && users == old(users) + [r.value]
        && nextUserId == old(nextUserId) + 1
    {
      if UserByEmail(users, email).Some? {
        return None;
      }
      var u := User(nextUserId, email, password);
      users := users + [u];
      nextUserId := nextUserId + 1;
      r := Some(u);
    }

    /**
     * `INSERT INTO bookmarks (userId, url, title, favicon, summary) VALUES (...)`:
     * the new row gets the next AUTOINCREMENT id, which is returned as `lastID`,
     * and `createdAt` = the current time.
     */
    method InsertBookmark(userId: int, url: string, title: Option<string>, favicon: Option<string>, summary: Option<string>)
      returns (lastId: nat)
      requires Valid() && bookmarksTable
      modifies this`bookmarks, this`nextBookmarkId
      ensures Valid()
      ensures lastId == old(nextBookmarkId) && nextBookmarkId == lastId + 1
      ensures bookmarks == old(bookmarks) + [Bookmark(lastId, userId, url, title, favicon, summary, clock)]
    {
      lastId := nextBookmarkId;
      bookmarks := bookmarks + [Bookmark(lastId, userId, url, title, favicon, summary, clock)];
      nextBookmarkId := nextBookmarkId + 1;
    }
  }

  /** `SELECT * FROM users WHERE email = ?`: the first row with that email, if any. */
  function UserByEmail(users: seq<User>, email: string): (r: Option<User>)
    ensures r.Some? ==> r.value in users && r.value.email == email
    ensures r.None? <==> forall u :: u in users ==> u.email != email
  {
    if users == [] then None
    else if users[0].email == email then Some(users[0])
    else UserByEmail(users[1..], email)
  }

  /** A row appended with an email not yet stored is what a lookup by that email finds. */
  lemma UserByEmailAppended(users: seq<User>, u: User)
    requires forall v :: v in users ==> v.email != u.email
    ensures UserByEmail(users + [u], u.email) == Some(u)
  {
  }

  /** `SELECT * FROM bookmarks WHERE id = ?`. */
  function BookmarkById(bookmarks: seq<Bookmark>, id: int): (r: Option<Bookmark>)
    ensures r.Some? ==> r.value in bookmarks && r.value.id == id
    ensures r.None? <==> forall b :: b in bookmarks ==> b.id != id
  {
    if bookmarks == [] then None
    else if bookmarks[0].id == id then Some(bookmarks[0])
    else BookmarkById(bookmarks[1..], id)
  }

  /** The row just inserted under a fresh id is what a lookup by that id finds. */
  lemma BookmarkByIdAppended(bookmarks: seq<Bookmark>, b: Bookmark)
    requires forall x :: x in bookmarks ==> x.id != b.id
    ensures BookmarkById(bookmarks + [b], b.id) == Some(b)
  {
  }

  /** `WHERE userId = ?`: the rows of one owner, in table order. */
  function OwnedBy(bookmarks: seq<Bookmark>, userId: int): (r: seq<Bookmark>)
    ensures forall b :: b in r <==> b in bookmarks && b.userId == userId
    ensures forall b :: multiset(r)[b] == if b.userId == userId then multiset(bookmarks)[b] else 0
  {
    if bookmarks == [] then []
    else
      assert bookmarks == [bookmarks[0]] + bookmarks[1..];
      (if bookmarks[0].userId == userId then [bookmarks[0]] else []) + OwnedBy(bookmarks[1..], userId)
  }

  /** `ORDER BY createdAt DESC`: every row is at least as recent as the rows after it. */
  predicate NewestFirstOrder(s: seq<Bookmark>)
  {
    forall i, j :: 0 <= i < j < |s| ==> s[i].createdAt >= s[j].createdAt
  }

  /** Puts `b` into a newest-first list, ahead of the first row that is not more recent than it. */
  function InsertNewest(b: Bookmark, s: seq<Bookmark>): (r: seq<Bookmark>)
    requires NewestFirstOrder(s)
    ensures NewestFirstOrder(r)
    ensures multiset(r) == multiset(s) + multiset{b}
  {
    if s == [] || s[0].createdAt <= b.createdAt then
      assert forall j :: 0 < j < |s| ==> s[j].createdAt <= s[0].createdAt;
      [b] + s
    else
      var rest := InsertNewest(b, s[1..]);
      assert s == [s[0]] + s[1..];
      HeadIsNewest(s[0], b, s[1..], rest);
      [s[0]] + rest
  }

  /** Helper for InsertNewest: a row at least as recent as everything in `rest` can go in front of it. */
  lemma HeadIsNewest(h: Bookmark, b: Bookmark, tail: seq<Bookmark>, rest: seq<Bookmark>)
    requires NewestFirstOrder(rest) && NewestFirstOrder([h] + tail)
    requires multiset(rest) == multiset(tail) + multiset{b}
    requires b.createdAt < h.createdAt
    ensures NewestFirstOrder([h] + rest)
  {
    forall j | 0 <= j < |rest| ensures rest[j].createdAt <= h.createdAt {
      assert rest[j] in multiset(rest);
      if rest[j] != b {
        assert rest[j] in multiset(tail);
        var i :| 0 <= i < |tail| && tail[i] == rest[j];
        assert ([h] + tail)[0] == h && ([h] + tail)[i + 1] == tail[i];
      }
    }
    var r := [h] + rest;
    forall i, j | 0 <= i < j < |r| ensures r[i].createdAt >= r[j].createdAt {
      assert r[j] == rest[j - 1];
      if i > 0 {
        assert r[i] == rest[i - 1];
      }
    }
  }

  /** Sorts rows newest first; rows with equal `createdAt` keep no particular order. */
  function SortNewestFirst(s: seq<Bookmark>): (r: seq<Bookmark>)
    ensures NewestFirstOrder(r)
    ensures multiset(r) == multiset(s)
  {
    if s == [] then []
    else
      assert s == [s[0]] + s[1..];
      InsertNewest(s[0], SortNewestFirst(s[1..]))
  }

  /**
   * `SELECT * FROM bookmarks WHERE userId = ? ORDER BY createdAt DESC`: exactly the
   * owner's rows, each as often as stored, most recent first.
   */
  function NewestFirst(bookmarks: seq<Bookmark>, userId: int): (r: seq<Bookmark>)
    ensures NewestFirstOrder(r)
    ensures forall b :: b in r <==> b in bookmarks && b.userId == userId
    ensures multiset(r) == multiset(OwnedBy(bookmarks, userId))
  {
    var r := SortNewestFirst(OwnedBy(bookmarks, userId));
    assert forall b :: b in r <==> b in multiset(OwnedBy(bookmarks, userId));
    r
  }

  /** A row that is strictly more recent than every other row of its owner heads the owner's list. */
  lemma MostRecentFirst(bookmarks: seq<Bookmark>, b: Bookmark)
    requires b in bookmarks
    requires forall x :: x in bookmarks && x.userId == b.userId && x != b ==> x.createdAt < b.createdAt
    ensures |NewestFirst(bookmarks, b.userId)| > 0 && NewestFirst(bookmarks, b.userId)[0] == b
  {
  }

  /** No owner's list holds a row of another owner. */
  lemma ListsArePrivate(bookmarks: seq<Bookmark>, a: int, b: int)
    requires a != b
    ensures forall x :: x in NewestFirst(bookmarks, a) ==> x !in NewestFirst(bookmarks, b)
  {
  }
}
