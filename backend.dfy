/**
  The hosted authentication and row-storage service, seen only through the answers it
  gives: the `SupabaseManager` wrapper (its exception-to-401 translation), the handle a
  manager instance is, and the `conversation` table with the two queries and the upsert
  the chat manager sends to it.
 */
module Backend {
  import opened Results
  import opened Http
  import opened Json

  /** The tokens a successful sign-in or refresh hands back. */
  datatype Tokens = Tokens(userId: string, accessToken: string, refreshToken: string)

  /** The hosted auth service as the answers it gives. A failure carries the text of the
      exception the client library raises. `signOut` answers `None` when the session
      behind an access token was ended, or the error text. */
  datatype HostedAuth = HostedAuth(
    signIn: (string, string) -> Result<Tokens, string>,
    refresh: string -> Result<Tokens, string>,
    signOut: string -> Option<string>)

  /** One `SupabaseManager` instance: an identity (two instances are never the same
      object) and the user whose session its client holds, if any. */
  datatype Manager = Manager(handle: nat, userId: Option<string>)

  /** `SupabaseManager.sign_in_with_password`: any failure of the hosted call becomes a
      401 whose detail is the failure's text. */
  function SignInWithPassword(auth: HostedAuth, email: string, password: string): (r: Result<Tokens, HttpError>)
    ensures auth.signIn(email, password).Success? ==> r == Success(auth.signIn(email, password).value)
    ensures auth.signIn(email, password).Failure? ==> r == Failure(HttpError(401, auth.signIn(email, password).error))
  {
    match auth.signIn(email, password)
    case Success(tokens) => Success(tokens)
    case Failure(message) => Failure(HttpError(401, message))
  }

  /** `SupabaseManager.refresh_access_token`, with the same translation. */
  function RefreshAccessToken(auth: HostedAuth, refreshToken: string): (r: Result<Tokens, HttpError>)
    ensures auth.refresh(refreshToken).Success? ==> r == Success(auth.refresh(refreshToken).value)
    ensures auth.refresh(refreshToken).Failure? ==> r == Failure(HttpError(401, auth.refresh(refreshToken).error))
  {
    match auth.refresh(refreshToken)
    case Success(tokens) => Success(tokens)
    case Failure(message) => Failure(HttpError(401, message))
  }

  // ---------------------------------------------------------------- the conversation table

  /** One row of the hosted `conversation` table. */
  datatype Row = Row(id: int, title: string, userId: string, messages: string, updatedAt: string)

  /** Lexicographic order on text. On the fixed layout `isoformat()` writes, it is the
      chronological order of the instants. */
  predicate TextLe(a: string, b: string) {
    a == [] || (b != [] && (a[0] < b[0] || (a[0] == b[0] && TextLe(a[1..], b[1..]))))
  }

  lemma {:induction false} TextLeTotal(a: string, b: string)
    ensures TextLe(a, b) || TextLe(b, a)
  {
    if a != [] && b != [] && a[0] == b[0] {
      TextLeTotal(a[1..], b[1..]);
    }
  }

  lemma {:induction false} TextLeTransitive(a: string, b: string, c: string)
    requires TextLe(a, b) && TextLe(b, c)
    ensures TextLe(a, c)
  {
    if a != [] && b != [] && c != [] && a[0] == b[0] && b[0] == c[0] {
      TextLeTransitive(a[1..], b[1..], c[1..]);
    }
  }

  /** Rows in the order `.order("updated_at", desc=True)` asks for. */
  ghost predicate NewestFirst(rows: seq<Row>) {
    forall i, j :: 0 <= i < j < |rows| ==> TextLe(rows[j].updatedAt, rows[i].updatedAt)
  }

  /** Places a row into a newest-first sequence. */
  function InsertNewestFirst(row: Row, rows: seq<Row>): seq<Row> {
    if rows == [] || TextLe(rows[0].updatedAt, row.updatedAt) then [row] + rows
    else [rows[0]] + InsertNewestFirst(row, rows[1..])
  }

  /** The rows newest first; rows with equal stamps may come in either order, as the
      database does not fix one. */
  function OrderNewestFirst(rows: seq<Row>): seq<Row> {
    if rows == [] then [] else InsertNewestFirst(rows[0], OrderNewestFirst(rows[1..]))
  }

  lemma {:induction false} InsertNewestFirstCorrect(row: Row, rows: seq<Row>)
    requires NewestFirst(rows)
    ensures NewestFirst(InsertNewestFirst(row, rows))
    ensures multiset(InsertNewestFirst(row, rows)) == multiset(rows) + multiset{row}
  {
    var r := InsertNewestFirst(row, rows);
    if rows == [] || TextLe(rows[0].updatedAt, row.updatedAt) {
      forall j | 0 < j < |r| ensures TextLe(r[j].updatedAt, r[0].updatedAt) {
        assert r[j] == rows[j - 1];
        if j > 1 { TextLeTransitive(rows[j - 1].updatedAt, rows[0].updatedAt, row.updatedAt); }
      }
    } else {
      var tail := InsertNewestFirst(row, rows[1..]);
      InsertNewestFirstCorrect(row, rows[1..]);
      TextLeTotal(rows[0].updatedAt, row.updatedAt);
      assert r == [rows[0]] + tail;
      forall k | 0 <= k < |rows[1..]| ensures TextLe(rows[1..][k].updatedAt, rows[0].updatedAt) {
        assert rows[1..][k] == rows[k + 1];
      }
      BoundedByHead(rows[0], row, rows[1..], tail);
      assert rows == [rows[0]] + rows[1..];
    }
  }

  /** Rows that are all no newer than `head`, with one more such row inserted anywhere,
      are still all no newer than `head`. */
  lemma BoundedByHead(head: Row, row: Row, rest: seq<Row>, tail: seq<Row>)
    requires forall k :: 0 <= k < |rest| ==> TextLe(rest[k].updatedAt, head.updatedAt)
    requires TextLe(row.updatedAt, head.updatedAt)
    requires multiset(tail) == multiset(rest) + multiset{row}
    ensures forall j :: 0 <= j < |tail| ==> TextLe(tail[j].updatedAt, head.updatedAt)
  {
    forall j | 0 <= j < |tail| ensures TextLe(tail[j].updatedAt, head.updatedAt) {
      assert tail[j] in multiset(tail);
      if tail[j] != row {
        assert tail[j] in multiset(rest);
        var k :| 0 <= k < |rest| && rest[k] == tail[j];
      }
    }
  }

  lemma {:induction false} OrderNewestFirstCorrect(rows: seq<Row>)
    ensures NewestFirst(OrderNewestFirst(rows))
    ensures multiset(OrderNewestFirst(rows)) == multiset(rows)
  {
    if rows != [] {
      OrderNewestFirstCorrect(rows[1..]);
      InsertNewestFirstCorrect(rows[0], OrderNewestFirst(rows[1..]));
      assert rows == [rows[0]] + rows[1..];
    }
  }

  /** The rows whose `id` equals the given one, in table order (`.eq("id", id)`). */
  function RowsWithId(rows: seq<Row>, id: int): (r: seq<Row>)
    ensures forall i :: 0 <= i < |r| ==> r[i].id == id && r[i] in rows
    ensures (forall i :: 0 <= i < |rows| ==> rows[i].id != id) <==> r == []
  {
    if rows == [] then []
    else if rows[0].id == id then [rows[0]] + RowsWithId(rows[1..], id)
    else RowsWithId(rows[1..], id)
  }

  /** The table state an upsert of `row` leads to: the row with the same id is replaced
      in place, or the row is appended when no row has that id. */
  function Upserted(rows: seq<Row>, row: Row): seq<Row> {
    if rows == [] then [row]
    else if rows[0].id == row.id then [row] + rows[1..]
    else [rows[0]] + Upserted(rows[1..], row)
  }

  /** No two rows share an id: `id` is the table's primary key. */
  ghost predicate UniqueIds(rows: seq<Row>) {
    forall i, j :: 0 <= i < j < |rows| ==> rows[i].id != rows[j].id
  }

  /** After an upsert, exactly one row carries that id and it is the written row; every
      row with another id is untouched. */
  lemma {:induction false} UpsertedCorrect(rows: seq<Row>, row: Row)
    requires UniqueIds(rows)
    ensures UniqueIds(Upserted(rows, row))
    ensures RowsWithId(Upserted(rows, row), row.id) == [row]
    ensures forall id :: id != row.id ==> RowsWithId(Upserted(rows, row), id) == RowsWithId(rows, id)
  {
    if rows == [] {
    } else if rows[0].id == row.id {
      var u := Upserted(rows, row);
      assert u[1..] == rows[1..];
      assert forall i :: 0 <= i < |rows[1..]| ==> rows[1..][i].id != row.id by {
        forall i | 0 <= i < |rows[1..]| ensures rows[1..][i].id != row.id {
          assert rows[1..][i] == rows[i + 1];
        }
      }
    } else {
      var u := Upserted(rows, row);
      UpsertedCorrect(rows[1..], row);
      assert u[1..] == Upserted(rows[1..], row);
      UpsertedIds(rows[1..], row);
      forall j | 0 < j < |u| ensures u[j].id != rows[0].id {
        assert u[j] == Upserted(rows[1..], row)[j - 1];
        if u[j].id != row.id {
          var k :| 0 <= k < |rows[1..]| && rows[1..][k].id == u[j].id;
          assert rows[k + 1] == rows[1..][k];
        }
      }
    }
  }

  /** An upsert adds a row exactly when no row has the written id; otherwise the table
      keeps its size and the row that had the id is replaced. */
  lemma {:induction false} UpsertedAddsIffNew(rows: seq<Row>, row: Row)
    ensures (exists i :: 0 <= i < |rows| && rows[i].id == row.id) ==> |Upserted(rows, row)| == |rows|
    ensures (forall i :: 0 <= i < |rows| ==> rows[i].id != row.id) ==> |Upserted(rows, row)| == |rows| + 1
  {
    if rows != [] && rows[0].id != row.id {
      UpsertedAddsIffNew(rows[1..], row);
      if exists i :: 0 <= i < |rows| && rows[i].id == row.id {
        var i :| 0 <= i < |rows| && rows[i].id == row.id;
        assert rows[1..][i - 1] == rows[i];
      }
      forall i | 0 <= i < |rows[1..]| ensures rows[1..][i] == rows[i + 1] { }
    }
  }

  /** Every row with the queried id is returned by the query. */
  lemma {:induction false} RowsWithIdComplete(rows: seq<Row>, k: nat)
    requires k < |rows|
    ensures rows[k] in RowsWithId(rows, rows[k].id)
  {
    if k > 0 {
      RowsWithIdComplete(rows[1..], k - 1);
      assert rows[1..][k - 1] == rows[k];
    }
  }

  /** A record the `conversation` table accepts: the four text columns, and an integer
      `id` when the record names the row to overwrite. */
  predicate IsConversationRecord(record: map<string, Json>) {
    && "title" in record && record["title"].JStr?
    && "user_id" in record && record["user_id"].JStr?
    && "messages" in record && record["messages"].JStr?
    && "updated_at" in record && record["updated_at"].JStr?
    && ("id" in record ==> record["id"].JInt?)
  }

  /** The hosted `conversation` table. `nextId` is the value its id sequence hands out
      next: the database takes it for a row inserted without an id and only then advances
      the sequence. A row inserted with an id of its own leaves the sequence alone. */
  class ConversationTable {
    var rows: seq<Row>
    var nextId: int

    ghost predicate Valid()
      reads this
    {
      UniqueIds(rows)
    }

    constructor ()
      ensures Valid() && rows == [] && nextId == 1
    {
      rows := [];
      nextId := 1;
    }

    /** `.upsert(record).execute()`: the row takes the record's `id`, or the sequence's next
        value when the record has none; the row holding that id is overwritten
        (`ON CONFLICT (id) DO UPDATE`), or the row is added. */
    method Upsert(record: map<string, Json>) returns (written: Row)
      requires Valid() && IsConversationRecord(record)
      modifies this
      ensures Valid()
      ensures "id" in record ==> written.id == record["id"].i && nextId == old(nextId)
      ensures "id" !in record ==> written.id == old(nextId) && nextId == old(nextId) + 1
      ensures written == Row(written.id, record["title"].s, record["user_id"].s,
                             record["messages"].s, record["updated_at"].s)
      ensures rows == Upserted(old(rows), written)
    {
      var key := if "id" in record then record["id"].i else nextId;
      written := Row(key, record["title"].s, record["user_id"].s, record["messages"].s, record["updated_at"].s);
      UpsertedCorrect(rows, written);
      rows := Upserted(rows, written);
      if "id" !in record {
        nextId := nextId + 1;
      }
    }

    /** `.select(...).eq("id", id).execute().data`. */
    method SelectById(id: int) returns (data: seq<Row>)
      requires Valid()
      ensures |data| <= 1
      ensures data == [] <==> forall i :: 0 <= i < |rows| ==> rows[i].id != id
      ensures forall i :: 0 <= i < |rows| && rows[i].id == id ==> data == [rows[i]]
      ensures data == RowsWithId(rows, id)
    {
      data := RowsWithId(rows, id);
      RowsWithIdAtMostOne(rows, id);
      forall i | 0 <= i < |rows| && rows[i].id == id ensures data == [rows[i]] {
        RowsWithIdComplete(rows, i);
      }
    }

    /** `.select(...).order("updated_at", desc=True).execute().data`: every row, once,
        newest first. Postgres leaves the order of rows with equal `updated_at` open; the
        last clause fixes one such order (the one `OrderNewestFirst` picks) so that callers
        have a function to reason with. */
    method SelectNewestFirst() returns (data: seq<Row>)
      ensures NewestFirst(data)
      ensures multiset(data) == multiset(rows)
      ensures data == OrderNewestFirst(rows)
    {
      data := OrderNewestFirst(rows);
      OrderNewestFirstCorrect(rows);
    }
  }

  /** The ids after an upsert are the old ids plus the written one. */
  lemma {:induction false} UpsertedIds(rows: seq<Row>, row: Row)
    ensures forall i :: 0 <= i < |Upserted(rows, row)| ==>
      Upserted(rows, row)[i].id == row.id || exists j :: 0 <= j < |rows| && rows[j].id == Upserted(rows, row)[i].id
  {
    if rows != [] && rows[0].id != row.id {
      UpsertedIds(rows[1..], row);
      var u := Upserted(rows, row);
      forall i | 0 <= i < |u| && u[i].id != row.id
        ensures exists j :: 0 <= j < |rows| && rows[j].id == u[i].id
      {
        if i > 0 {
          assert u[i] == Upserted(rows[1..], row)[i - 1];
          var j :| 0 <= j < |rows[1..]| && rows[1..][j].id == u[i].id;
          assert rows[j + 1].id == u[i].id;
        }
      }
    } else if rows != [] {
      var u := Upserted(rows, row);
      forall i | 0 < i < |u| ensures rows[i].id == u[i].id { }
    }
  }

  /** With unique ids, the query by id finds at most one row. */
  lemma {:induction false} RowsWithIdAtMostOne(rows: seq<Row>, id: int)
    requires UniqueIds(rows)
    ensures |RowsWithId(rows, id)| <= 1
  {
    if rows != [] {
      RowsWithIdAtMostOne(rows[1..], id);
      if rows[0].id == id {
        forall i | 0 <= i < |rows[1..]| ensures rows[1..][i].id != id {
          assert rows[1..][i] == rows[i + 1];
        }
      }
    }
  }
}
