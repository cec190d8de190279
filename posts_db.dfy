/** services/database/posts_servicer.py: the posts table of the database service.
    Requests carry an entry; FIND and DELETE build a query-by-example `WHERE`
    clause from the fields of the match entry that are set. The SQL engine is a
    parameter that answers a statement and its bound values with rows or a
    `sqlite3.Error` message. */
module PostsDb {
  import opened Wrappers
  import opened Strings
  import opened Proto

  /** `database_pb2.PostsEntry` in this servicer's schema: five columns. A
      creation time that is not set is `None`. */
  datatype DbPostsEntry = DbPostsEntry(globalId: int, author: string, title: string, body: string,
                                       creationSeconds: Option<int>)

  const EmptyEntry: DbPostsEntry := DbPostsEntry(0, "", "", "", None)

  /** A value bound to a `?` placeholder, or read from a row. */
  datatype Value = IntValue(i: int) | TextValue(s: string) | TimeValue(seconds: int)

  type Row = seq<Value>

  /** `sqlite3` behind `self._db.execute(statement, *values)`. */
  type Db = (string, seq<Value>) -> Result<seq<Row>, string>

  datatype RequestType = INSERT | FIND | DELETE | UPDATE

  datatype PostsRequest = PostsRequest(requestType: RequestType, entry: DbPostsEntry, matchEntry: DbPostsEntry)

  const InsertStatement: string :=
    "INSERT INTO posts (global_id, author, title, body, creation_datetime) VALUES (?, ?, ?, ?, ?)"

  // ------------------------------------------------------------ filters

  /** `entry.ListFields()`: the fields holding a non-default value, in field
      order, with their names. */
  function ListFields(e: DbPostsEntry): (r: seq<(string, Value)>)
    ensures forall i :: 0 <= i < |r| ==> '?' !in r[i].0
  {
    (if e.globalId != 0 then [("global_id", IntValue(e.globalId))] else []) +
    (if e.author != "" then [("author", TextValue(e.author))] else []) +
    (if e.title != "" then [("title", TextValue(e.title))] else []) +
    (if e.body != "" then [("body", TextValue(e.body))] else []) +
    (if e.creationSeconds.Some? then [("creation_datetime", TimeValue(e.creationSeconds.value))] else [])
  }

  function FilterList(fields: seq<(string, Value)>): (r: seq<string>)
    ensures |r| == |fields|
    ensures forall i :: 0 <= i < |r| ==> r[i] == fields[i].0 + " = ?"
  {
    if fields == [] then [] else [fields[0].0 + " = ?"] + FilterList(fields[1..])
  }

  function FieldValues(fields: seq<(string, Value)>): (r: seq<Value>)
    ensures |r| == |fields|
    ensures forall i :: 0 <= i < |r| ==> r[i] == fields[i].1
  {
    if fields == [] then [] else [fields[0].1] + FieldValues(fields[1..])
  }

  /** `_entry_to_filter`: one `name = ?` per set field, joined by " AND ", and
      the values in the same order. */
  function EntryToFilter(e: DbPostsEntry): (r: (string, seq<Value>))
    ensures |r.1| == |ListFields(e)| && |r.1| <= 5
  {
    var fields := ListFields(e);
    (Join(FilterList(fields), " AND "), FieldValues(fields))
  }

  lemma {:induction false} CountAppend(a: string, b: string, c: char)
    ensures Count(a + b, c) == Count(a, c) + Count(b, c)
  {
    if a != [] {
      assert (a + b)[0] == a[0];
      assert (a + b)[1..] == a[1..] + b;
      CountAppend(a[1..], b, c);
    } else {
      assert a + b == b;
    }
  }

  lemma {:induction false} CountJoin(parts: seq<string>, sep: string, c: char)
    requires Count(sep, c) == 0
    requires forall i :: 0 <= i < |parts| ==> Count(parts[i], c) == 1
    ensures Count(Join(parts, sep), c) == |parts|
  {
    if |parts| > 1 {
      CountJoin(parts[1..], sep, c);
      CountAppend(parts[0], sep, c);
      CountAppend(parts[0] + sep, Join(parts[1..], sep), c);
    }
  }

  /** A `name = ?` item has one placeholder when the name has none. */
  lemma FilterItemPlaceholder(name: string)
    requires '?' !in name
    ensures Count(name + " = ?", '?') == 1
  {
    CountAppend(name, " = ?", '?');
    CountZero(name, '?');
  }

  /** Field names of the entry contain no '?'. */
  lemma FieldNamesPlain(e: DbPostsEntry)
    ensures forall i :: 0 <= i < |ListFields(e)| ==> Count(ListFields(e)[i].0 + " = ?", '?') == 1
  {
    var fields := ListFields(e);
    forall i | 0 <= i < |fields|
      ensures Count(fields[i].0 + " = ?", '?') == 1
    {
      FilterItemPlaceholder(fields[i].0);
    }
  }

  /** The clause has exactly as many placeholders as there are values, and it is
      empty exactly when no field of the entry is set. */
  lemma EntryToFilterPlaceholders(e: DbPostsEntry)
    ensures Count(EntryToFilter(e).0, '?') == |EntryToFilter(e).1|
    ensures EntryToFilter(e).0 == "" <==> ListFields(e) == []
  {
    FieldNamesPlain(e);
    CountZero(" AND ", '?');
    CountJoin(FilterList(ListFields(e)), " AND ", '?');
  }

  /** The statement FIND runs for a clause. */
  function FindStatement(clause: string): string {
    if clause == "" then "SELECT * FROM posts" else "SELECT * FROM posts WHERE " + clause
  }

  /** The statement DELETE runs for a clause. */
  function DeleteStatement(clause: string): string {
    if clause == "" then "DELETE FROM posts" else "DELETE FROM posts WHERE " + clause
  }

  /** An entry with nothing set matches every row: FIND selects and DELETE removes
      the whole table, with no values bound. */
  lemma EmptyMatchIsWholeTable()
    ensures EntryToFilter(EmptyEntry) == ("", [])
    ensures FindStatement(EntryToFilter(EmptyEntry).0) == "SELECT * FROM posts"
    ensures DeleteStatement(EntryToFilter(EmptyEntry).0) == "DELETE FROM posts"
  {
  }

  // ------------------------------------------------------------- decoding

  /** `_db_tuple_to_entry`: five columns of the right types, or nothing. (A
      column of the wrong type makes an assignment raise, which also gives
      `False`.) */
  function TupleToEntry(tup: Row): (r: Option<DbPostsEntry>)
    ensures |tup| != 5 ==> r.None?
    ensures r.Some? ==> tup == EntryToRow(r.value)
  {
    if |tup| != 5 then None
    else if tup[0].IntValue? && tup[1].TextValue? && tup[2].TextValue? && tup[3].TextValue? && tup[4].IntValue? then
      Some(DbPostsEntry(tup[0].i, tup[1].s, tup[2].s, tup[3].s, Some(tup[4].i)))
    else None
  }

  /** The row an entry with a creation time is stored as. */
  function EntryToRow(e: DbPostsEntry): Row {
    [IntValue(e.globalId), TextValue(e.author), TextValue(e.title), TextValue(e.body),
     IntValue(if e.creationSeconds.Some? then e.creationSeconds.value else 0)]
  }

  /** Decoding a stored row gives the entry back. */
  lemma TupleToEntryRoundTrip(e: DbPostsEntry)
    requires e.creationSeconds.Some?
    ensures TupleToEntry(EntryToRow(e)) == Some(e)
  {
  }

  /** The entries of the rows that decode, in query order. */
  function DecodeRows(rows: seq<Row>): (r: seq<DbPostsEntry>)
    ensures |r| <= |rows|
  {
    if rows == [] then []
    else
      var t := TupleToEntry(rows[|rows| - 1]);
      DecodeRows(rows[..|rows| - 1]) + (if t.Some? then [t.value] else [])
  }

  /** Decoding one more row appends its entry when it has one. */
  lemma DecodeNext(rows: seq<Row>, i: int)
    requires 0 <= i < |rows|
    ensures DecodeRows(rows[..i + 1]) ==
      DecodeRows(rows[..i]) + (if TupleToEntry(rows[i]).Some? then [TupleToEntry(rows[i]).value] else [])
  {
    assert rows[..i + 1][..i] == rows[..i];
  }

  /** Rows of the wrong arity never reach the response. */
  lemma DecodeRowsSkipsBadArity(rows: seq<Row>, tup: Row)
    requires |tup| != 5
    ensures DecodeRows(rows + [tup]) == DecodeRows(rows)
  {
    assert (rows + [tup])[..|rows|] == rows;
  }

  /** Every row that decodes is kept, in order. */
  lemma {:induction false} DecodeRowsAll(rows: seq<Row>)
    requires forall i :: 0 <= i < |rows| ==> TupleToEntry(rows[i]).Some?
    ensures |DecodeRows(rows)| == |rows|
    ensures forall i :: 0 <= i < |rows| ==> DecodeRows(rows)[i] == TupleToEntry(rows[i]).value
  {
    if rows != [] {
      var front, last := rows[..|rows| - 1], rows[|rows| - 1];
      assert forall i :: 0 <= i < |front| ==> front[i] == rows[i];
      DecodeRowsAll(front);
      var r := DecodeRows(rows);
      assert r == DecodeRows(front) + [TupleToEntry(last).value];
      forall i | 0 <= i < |rows|
        ensures r[i] == TupleToEntry(rows[i]).value
      {
        if i < |front| {
          assert r[i] == DecodeRows(front)[i];
        }
      }
    }
  }

  // ------------------------------------------------------------- handlers

  /** `database_pb2.PostsResponse`, filled in place by the handlers. */
  class PostsResponse {
    var resultType: ResultType
    var error: string
    var results: seq<DbPostsEntry>

    constructor()
      ensures resultType == OK && error == "" && results == []
    {
      resultType := OK;
      error := "";
      results := [];
    }
  }

  class PostsDatabaseServicer {
    const db: Db

    constructor(db: Db)
      ensures this.db == db
    {
      this.db := db;
    }

    /** `Posts`: a fresh response, filled by the handler of the request's type. */
    method Posts(request: PostsRequest) returns (response: PostsResponse)
      ensures request.requestType == INSERT ==> InsertOutcome(response, request.entry)
      ensures request.requestType == FIND ==> FindOutcome(response, request.matchEntry)
      ensures request.requestType == DELETE ==> DeleteOutcome(response, request.matchEntry)
      ensures request.requestType == UPDATE ==>
        response.resultType == OK && response.error == "" && response.results == []
    {
      response := new PostsResponse();
      match request.requestType
      case INSERT => HandleInsert(request, response);
      case FIND => HandleFind(request, response);
      case DELETE => HandleDelete(request, response);
      case UPDATE => HandleUpdate(request, response);
    }

    /** The values `_handle_insert` binds. */
    function InsertValues(e: DbPostsEntry): seq<Value> {
      [IntValue(e.globalId), TextValue(e.author), TextValue(e.title), TextValue(e.body),
       IntValue(if e.creationSeconds.Some? then e.creationSeconds.value else 0)]
    }

    predicate InsertOutcome(resp: PostsResponse, e: DbPostsEntry)
      reads resp
    {
      match db(InsertStatement, InsertValues(e))
      case Err(msg) => resp.resultType == ERROR && resp.error == msg && resp.results == []
      case Ok(_) => resp.resultType == OK && resp.error == "" && resp.results == []
    }

    predicate FindOutcome(resp: PostsResponse, m: DbPostsEntry)
      reads resp
    {
      var (clause, values) := EntryToFilter(m);
      var bound := if clause == "" then [] else values;
      match db(FindStatement(clause), bound)
      case Err(msg) => resp.resultType == ERROR && resp.error == msg && resp.results == []
      case Ok(rows) => resp.resultType == OK && resp.error == "" && resp.results == DecodeRows(rows)
    }

    predicate DeleteOutcome(resp: PostsResponse, m: DbPostsEntry)
      reads resp
    {
      var (clause, values) := EntryToFilter(m);
      var bound := if clause == "" then [] else values;
      match db(DeleteStatement(clause), bound)
      case Err(msg) => resp.resultType == ERROR && resp.error == msg && resp.results == []
      case Ok(_) => resp.resultType == OK && resp.error == "" && resp.results == []
    }

    /** `_handle_insert`. */
    method HandleInsert(req: PostsRequest, resp: PostsResponse)
      requires resp.resultType == OK && resp.error == "" && resp.results == []
      modifies resp
      ensures InsertOutcome(resp, req.entry)
    {
      var res := db(InsertStatement, InsertValues(req.entry));
      if res.Err? {
        resp.resultType := ERROR;
        resp.error := res.error;
        return;
      }
      resp.resultType := OK;
    }

    /** `_handle_find`: each row is decoded into a newly added result, which is
        removed again when decoding fails. */
    method HandleFind(req: PostsRequest, resp: PostsResponse)
      requires resp.resultType == OK && resp.error == "" && resp.results == []
      modifies resp
      ensures FindOutcome(resp, req.matchEntry)
    {
      var (filterClause, values) := EntryToFilter(req.matchEntry);
      var res;
      if filterClause == "" {
        res := db(FindStatement(""), []);
      } else {
        res := db(FindStatement(filterClause), values);
      }
      if res.Err? {
        resp.resultType := ERROR;
        resp.error := res.error;
        return;
      }
      resp.resultType := OK;
      DecodeInto(res.value, resp);
    }

    /** The loop of `_handle_find`: every row that decodes is appended to the
        results, in row order. */
    method DecodeInto(rows: seq<Row>, resp: PostsResponse)
      requires resp.resultType == OK && resp.error == "" && resp.results == []
      modifies resp
      ensures resp.resultType == OK && resp.error == "" && resp.results == DecodeRows(rows)
    {
      for i := 0 to |rows|
        invariant resp.resultType == OK && resp.error == ""
        invariant resp.results == DecodeRows(rows[..i])
      {
        DecodeNext(rows, i);
        resp.results := resp.results + [EmptyEntry];
        var entry := TupleToEntry(rows[i]);
        if entry.None? {
          resp.results := resp.results[..|resp.results| - 1];
        } else {
          resp.results := resp.results[|resp.results| - 1 := entry.value];
        }
      }
      assert rows[..|rows|] == rows;
    }

    /** `_handle_delete`. */
    method HandleDelete(req: PostsRequest, resp: PostsResponse)
      requires resp.resultType == OK && resp.error == "" && resp.results == []
      modifies resp
      ensures DeleteOutcome(resp, req.matchEntry)
    {
      var (filterClause, values) := EntryToFilter(req.matchEntry);
      var res;
      if filterClause == "" {
        res := db(DeleteStatement(""), []);
      } else {
        res := db(DeleteStatement(filterClause), values);
      }
      if res.Err? {
        resp.resultType := ERROR;
        resp.error := res.error;
        return;
      }
      resp.resultType := OK;
    }

    /** `_handle_update`: does nothing. */
    method HandleUpdate(req: PostsRequest, resp: PostsResponse)
      ensures unchanged(resp)
    {
    }
  }
}
