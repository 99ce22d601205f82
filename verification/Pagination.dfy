/** Keyset pagination of a user's profiles (`list_profiles`, apps/api/ratereplay_api/import_routes.py).

  A table maps profile ids to rows and may be a different one for every request. Ids compare as the
  numbers that their 32 hexadecimal digits write. */
module Pagination {
  import opened Arithmetic
  import opened Results

  type Id = nat
  type User = nat

  datatype Row = Row(createdAt: int, owner: User, active: bool, importOwner: User, importActive: bool)

  type Table = map<Id, Row>

  datatype Key = Key(createdAt: int, id: Id)

  /** The sort order of the listing, read downwards. */
  predicate Below(a: Key, b: Key) {
    a.createdAt < b.createdAt || (a.createdAt == b.createdAt && a.id < b.id)
  }

  predicate Visible(row: Row, user: User) {
    row.owner == user && row.active && row.importOwner == user && row.importActive
  }

  function Listed(table: Table, user: User): set<Key> {
    set id | id in table && Visible(table[id], user) :: Key(table[id].createdAt, id)
  }

  /** The rows that the query's cursor condition leaves. */
  function Remaining(table: Table, user: User, cursor: Option<Key>): set<Key> {
    set k | k in Listed(table, user) && (cursor.Some? ==> Below(k, cursor.value))
  }

  // ----- order by, limit -----

  ghost predicate Greatest(s: set<Key>, m: Key) {
    m in s && forall k :: k in s && k != m ==> Below(k, m)
  }

  lemma {:induction false} GreatestExists(s: set<Key>)
    requires s != {}
    ensures exists m :: Greatest(s, m)
  {
    var x :| x in s;
    var rest := s - {x};
    assert forall k :: k in s ==> k == x || k in rest;
    if rest == {} {
      assert Greatest(s, x);
    } else {
      GreatestExists(rest);
      var m :| Greatest(rest, m);
      var top := if Below(m, x) then x else m;
      forall k | k in s && k != top
        ensures Below(k, top)
      {
        assert k != x ==> k in rest;
      }
      assert Greatest(s, top);
    }
  }

  /** `order_by(created_at desc, id desc).limit(n)`. */
  ghost function Top(s: set<Key>, n: nat): seq<Key>
    decreases n
  {
    if n == 0 || s == {} then [] else
    GreatestExists(s);
    var m :| Greatest(s, m);
    [m] + Top(s - {m}, n - 1)
  }

  predicate Descending(keys: seq<Key>) {
    forall i, j :: 0 <= i < j < |keys| ==> Below(keys[j], keys[i])
  }

  /** The first rows of the sorted listing: in order, all from the set, and everything left out is
      below everything returned and left out only because of the limit. */
  ghost predicate Heads(rows: seq<Key>, s: set<Key>, n: nat) {
    && Descending(rows) && |rows| <= n
    && (forall k :: k in rows ==> k in s)
    && (forall k, l :: k in s && k !in rows && l in rows ==> Below(k, l))
    && (|rows| < n ==> forall k :: k in s ==> k in rows)
  }

  lemma {:induction false} HeadsGrow(m: Key, rest: seq<Key>, s: set<Key>, n: nat)
    requires n > 0 && Greatest(s, m) && Heads(rest, s - {m}, n - 1)
    ensures Heads([m] + rest, s, n)
  {
    hide Below;
    var rows := [m] + rest;
    forall i, j | 0 <= i < j < |rows|
      ensures Below(rows[j], rows[i])
    {
      assert rows[j] == rest[j - 1] && rest[j - 1] in rest;
    }
    assert forall k :: k in rows <==> k == m || k in rest;
  }

  lemma {:induction false} TopIsSorted(s: set<Key>, n: nat)
    ensures Heads(Top(s, n), s, n)
    decreases n
  {
    if n > 0 && s != {} {
      hide Heads;
      var m, rest := Top(s, n)[0], Top(s, n)[1..];
      GreatestExists(s);
      assert Greatest(s, m) && rest == Top(s - {m}, n - 1) && Top(s, n) == [m] + rest;
      TopIsSorted(s - {m}, n - 1);
      HeadsGrow(m, rest, s, n);
    }
  }

  // ----- one page -----

  datatype Page = Page(items: seq<Key>, next: Option<Key>)

  ghost function ListProfiles(table: Table, user: User, cursor: Option<Key>, size: nat): Page
    requires size >= 1
  {
    var rows := Top(Remaining(table, user, cursor), size + 1);
    var items := if |rows| > size then rows[..size] else rows;
    Page(items, if |rows| > size then Some(items[size - 1]) else None)
  }

  /** What a page promises: it is sorted, it holds only what remains, it holds all of it down to the next
      cursor, and without a next cursor all of it. A next cursor is the last item of a full page. */
  lemma {:induction false} PageIsExact(table: Table, user: User, cursor: Option<Key>, size: nat)
    requires size >= 1
    ensures var page := ListProfiles(table, user, cursor, size);
            var all := Remaining(table, user, cursor);
            && Descending(page.items) && |page.items| <= size
            && (forall k :: k in page.items ==> k in all)
            && (page.next.None? ==> forall k :: k in all ==> k in page.items)
            && (page.next.Some? ==>
                  && |page.items| == size && page.next.value == page.items[size - 1]
                  && (forall k :: k in all && !Below(k, page.next.value) ==> k in page.items)
                  && exists k :: k in all && Below(k, page.next.value))
  {
    hide Remaining;
    var all := Remaining(table, user, cursor);
    var rows := Top(all, size + 1);
    TopIsSorted(all, size + 1);
    if |rows| > size {
      assert rows[size] in rows && Below(rows[size], rows[size - 1]);
      forall k | k in all && !Below(k, rows[size - 1])
        ensures k in rows[..size]
      {
        assert rows[size - 1] in rows && k in rows;
        var i :| 0 <= i < |rows| && rows[i] == k;
        assert i < size;
      }
    }
  }

  /** What a user is shown: their own active profiles of their own active imports, each with its creation
      time. */
  lemma {:induction false} ListedExactly(table: Table, user: User, k: Key)
    ensures k in Listed(table, user) <==>
            && k.id in table && table[k.id].createdAt == k.createdAt
            && table[k.id].owner == user && table[k.id].active
            && table[k.id].importOwner == user && table[k.id].importActive
  {
  }

  /** Newest first, and of equally old ones the greater id first. */
  lemma {:induction false} NewestFirst(keys: seq<Key>)
    ensures Descending(keys) <==>
            forall i, j :: 0 <= i < j < |keys| ==>
              keys[i].createdAt > keys[j].createdAt
                || (keys[i].createdAt == keys[j].createdAt && keys[i].id > keys[j].id)
  {
    forall i, j | 0 <= i < j < |keys|
      ensures Below(keys[j], keys[i]) <==>
        keys[i].createdAt > keys[j].createdAt || (keys[i].createdAt == keys[j].createdAt && keys[i].id > keys[j].id)
    {
    }
  }

  // ----- following the cursor, over tables that may change between requests -----

  datatype Request = Request(table: Table, size: nat)

  predicate Sized(requests: seq<Request>) {
    forall i :: 0 <= i < |requests| ==> requests[i].size >= 1
  }

  ghost function Items(requests: seq<Request>, user: User, cursor: Option<Key>): seq<Key>
    requires Sized(requests)
  {
    if requests == [] then [] else
    var page := ListProfiles(requests[0].table, user, cursor, requests[0].size);
    page.items + if page.next.Some? then Items(requests[1..], user, page.next) else []
  }

  /** Some page came without a next cursor. */
  ghost predicate Finished(requests: seq<Request>, user: User, cursor: Option<Key>)
    requires Sized(requests)
  {
    requests != [] &&
    var page := ListProfiles(requests[0].table, user, cursor, requests[0].size);
    page.next.None? || Finished(requests[1..], user, page.next)
  }

  /** Whatever happens to the table between requests, the listing only goes down, so nothing is
      returned twice, and everything returned was visible to the user when it was returned. */
  lemma {:induction false} NothingTwice(requests: seq<Request>, user: User, cursor: Option<Key>)
    requires Sized(requests)
    ensures var items := Items(requests, user, cursor);
            && Descending(items)
            && (forall k :: k in items ==> cursor.Some? ==> Below(k, cursor.value))
            && (forall k :: k in items ==> exists i :: 0 <= i < |requests| && k in Listed(requests[i].table, user))
  {
    if requests != [] {
      hide ListProfiles, Listed;
      var page := ListProfiles(requests[0].table, user, cursor, requests[0].size);
      PageIsExact(requests[0].table, user, cursor, requests[0].size);
      if page.next.Some? {
        hide Below;
        NothingTwice(requests[1..], user, page.next);
        var rest := Items(requests[1..], user, page.next);
        DescendingJoin(page.items, rest);
        forall k | k in rest
          ensures cursor.Some? ==> Below(k, cursor.value)
          ensures exists i :: 0 <= i < |requests| && k in Listed(requests[i].table, user)
        {
          var last := page.next.value;
          assert last in page.items && last in Remaining(requests[0].table, user, cursor);
          if cursor.Some? {
            BelowIsTransitive(k, last, cursor.value);
          }
          var i :| 0 <= i < |requests[1..]| && k in Listed(requests[1..][i].table, user);
          assert requests[1..][i] == requests[i + 1];
        }
      }
    }
  }

  lemma {:induction false} BelowIsTransitive(a: Key, b: Key, c: Key)
    requires Below(a, b) && Below(b, c)
    ensures Below(a, c)
  {
  }

  lemma {:induction false} DescendingJoin(a: seq<Key>, b: seq<Key>)
    requires Descending(a) && Descending(b) && a != [] && forall k :: k in b ==> Below(k, a[|a| - 1])
    ensures Descending(a + b)
  {
    hide Below;
    var all := a + b;
    forall i, j | 0 <= i < j < |all|
      ensures Below(all[j], all[i])
    {
      if i < |a| <= j {
        assert all[j] in b;
        if i < |a| - 1 {
          BelowIsTransitive(all[j], a[|a| - 1], a[i]);
        }
      }
    }
  }

  /** A profile that is listed in every table of a finished traversal is returned. */
  lemma {:induction false} NothingSkipped(requests: seq<Request>, user: User, cursor: Option<Key>, k: Key)
    requires Sized(requests) && Finished(requests, user, cursor)
    requires cursor.Some? ==> Below(k, cursor.value)
    requires forall i :: 0 <= i < |requests| ==> k in Listed(requests[i].table, user)
    ensures k in Items(requests, user, cursor)
  {
    hide ListProfiles, Listed;
    var page := ListProfiles(requests[0].table, user, cursor, requests[0].size);
    PageIsExact(requests[0].table, user, cursor, requests[0].size);
    assert k in Listed(requests[0].table, user);
    assert k in Remaining(requests[0].table, user, cursor);
    if page.next.Some? && Below(k, page.next.value) {
      assert forall i :: 0 <= i < |requests[1..]| ==> requests[1..][i] == requests[i + 1];
      NothingSkipped(requests[1..], user, page.next, k);
    }
  }

  /** Over one table, a finished traversal with any page sizes returns each listed profile exactly once,
      in strictly descending order. */
  lemma {:induction false} TraversalIsComplete(requests: seq<Request>, user: User, table: Table)
    requires Sized(requests) && Finished(requests, user, None)
    requires forall i :: 0 <= i < |requests| ==> requests[i].table == table
    ensures var items := Items(requests, user, None);
            Descending(items) && forall k :: k in items <==> k in Listed(table, user)
  {
    hide Finished, Items, Listed;
    NothingTwice(requests, user, None);
    forall k | k in Listed(table, user)
      ensures k in Items(requests, user, None)
    {
      NothingSkipped(requests, user, None, k);
    }
  }

  /** Over one table, as many requests as there are profiles, and one more, always finish. */
  lemma {:induction false} TraversalFinishes(requests: seq<Request>, user: User, table: Table, cursor: Option<Key>)
    requires Sized(requests) && (forall i :: 0 <= i < |requests| ==> requests[i].table == table)
    requires |requests| > |Remaining(table, user, cursor)|
    ensures Finished(requests, user, cursor)
    decreases |requests|
  {
    hide ListProfiles, Listed;
    var page := ListProfiles(table, user, cursor, requests[0].size);
    PageIsExact(table, user, cursor, requests[0].size);
    if page.next.Some? {
      var all, rest := Remaining(table, user, cursor), Remaining(table, user, page.next);
      assert page.next.value in page.items && page.next.value in all && page.next.value !in rest;
      assert rest <= all;
      Smaller(rest, all, page.next.value);
      TraversalFinishes(requests[1..], user, table, page.next);
    }
  }

  lemma {:induction false} Smaller(rest: set<Key>, all: set<Key>, k: Key)
    requires rest <= all && k in all && k !in rest
    ensures |rest| < |all|
  {
    var others := all - {k};
    assert rest <= others;
    SubsetSize(rest, others);
  }
}
