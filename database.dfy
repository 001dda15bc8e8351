/** The SQL text and parameter lists that database.py hands to SQLite.

    Only the statements are modelled: what `cursor.execute` receives, or
    that nothing is executed at all. Opening the connection, running the
    statement and reading `rowcount` / `lastrowid` back are not.

    A statement's text is kept as a list of pieces, literal text or one
    `?` placeholder, so that the placeholders can be counted piece by
    piece; `Sql` renders the pieces into the string SQLite receives, and
    `PlaceholdersMatch` turns the piece count into a count of `?`
    characters in that string. */
module Database {
  import opened Common

  /** A value bound to one `?`: a Python str, int, float or None. */
  datatype SqlValue = Text(s: string) | Int(i: int) | Real(r: real) | Null

  /** A stretch of literal SQL, or one `?`. */
  datatype Piece = Literal(text: string) | Mark

  /** The arguments of one `cursor.execute(sql, params)`. */
  datatype Statement = Statement(pieces: seq<Piece>, params: seq<SqlValue>)

  function PieceText(p: Piece): string {
    match p
    case Literal(t) => t
    case Mark => "?"
  }

  /** The pieces written out one after another. */
  function Render(ps: seq<Piece>): string {
    if ps == [] then "" else Render(ps[..|ps| - 1]) + PieceText(ps[|ps| - 1])
  }

  /** The SQL text of a statement. */
  function Sql(st: Statement): string {
    Render(st.pieces)
  }

  /** The number of placeholder pieces. */
  function Marks(ps: seq<Piece>): nat {
    if ps == [] then 0 else Marks(ps[..|ps| - 1]) + (if ps[|ps| - 1].Mark? then 1 else 0)
  }

  /** No literal piece contains a `?` of its own. */
  predicate Plain(ps: seq<Piece>) {
    forall i :: 0 <= i < |ps| ==> ps[i].Literal? ==> '?' !in ps[i].text
  }

  /** The number of `?` in the SQL text equals the number of parameters. */
  predicate Balanced(st: Statement) {
    Count(Sql(st), '?') == |st.params|
  }

  lemma Snoc(ps: seq<Piece>, p: Piece)
    ensures Render(ps + [p]) == Render(ps) + PieceText(p)
    ensures Marks(ps + [p]) == Marks(ps) + (if p.Mark? then 1 else 0)
    ensures Plain(ps + [p]) <==> Plain(ps) && (p.Literal? ==> '?' !in p.text)
  {
    assert (ps + [p])[..|ps|] == ps;
  }

  lemma Single(p: Piece)
    ensures Render([p]) == PieceText(p)
    ensures Marks([p]) == (if p.Mark? then 1 else 0)
    ensures Plain([p]) <==> (p.Literal? ==> '?' !in p.text)
  {
    assert [p][..0] == [];
  }

  lemma Pair(p: Piece, q: Piece)
    ensures Render([p, q]) == PieceText(p) + PieceText(q)
    ensures Marks([p, q]) == Marks([p]) + Marks([q])
    ensures Plain([p, q]) <==> Plain([p]) && Plain([q])
  {
    Single(p);
    Single(q);
    assert [p] + [q] == [p, q];
    Snoc([p], q);
  }

  lemma Triple(p: Piece, q: Piece, r: Piece)
    ensures Render([p, q, r]) == PieceText(p) + PieceText(q) + PieceText(r)
    ensures Marks([p, q, r]) == Marks([p]) + Marks([q]) + Marks([r])
    ensures Plain([p, q, r]) <==> Plain([p]) && Plain([q]) && Plain([r])
  {
    Pair(p, q);
    Single(r);
    assert [p, q] + [r] == [p, q, r];
    Snoc([p, q], r);
  }

  lemma {:induction false} Concat(a: seq<Piece>, b: seq<Piece>)
    ensures Render(a + b) == Render(a) + Render(b)
    ensures Marks(a + b) == Marks(a) + Marks(b)
    ensures Plain(a + b) <==> Plain(a) && Plain(b)
    decreases |b|
  {
    if b == [] {
      assert a + b == a;
    } else {
      var init := b[..|b| - 1];
      var last := b[|b| - 1];
      assert a + b == (a + init) + [last];
      assert b == init + [last];
      Concat(a, init);
      Snoc(a + init, last);
      Snoc(init, last);
    }
  }

  /** Rendering adds one `?` per placeholder piece and no other. */
  lemma {:induction false} RenderCount(ps: seq<Piece>)
    requires Plain(ps)
    ensures Count(Render(ps), '?') == Marks(ps)
  {
    if ps != [] {
      var init := ps[..|ps| - 1];
      var last := ps[|ps| - 1];
      assert Plain(init);
      RenderCount(init);
      match last
      case Literal(t) =>
        CountAbsent(t, '?');
        CountAppend(Render(init), t, '?');
      case Mark =>
        CountAppend(Render(init), "?", '?');
        assert Count("?", '?') == 1;
    }
  }

  /** A statement with one parameter per placeholder piece, and no `?`
      inside its literal pieces, has as many `?` in its text as parameters. */
  lemma PlaceholdersMatch(st: Statement)
    requires Plain(st.pieces) && Marks(st.pieces) == |st.params|
    ensures Balanced(st)
  {
    RenderCount(st.pieces);
  }

  // -------------------------------------------------------- the fragments

  const InsertInto: string := "\n        INSERT INTO questions \n        "
  const InsertColumns1: string := "(filename, image_path, topic, subtopic, "
  const InsertColumns2: string := "status, solution, error, time_taken, "
  const InsertColumns3: string := "session_id, solved_at)\n        VALUES ("
  const InsertEnd: string := ")\n    "
  const InsertHead: string := InsertInto + InsertColumns1 + InsertColumns2 + InsertColumns3
  const SelectQuestions: string := "SELECT * FROM questions WHERE 1=1"
  const OrderLimit: string := " ORDER BY created_at DESC LIMIT "
  const OffsetWord: string := " OFFSET "
  /** The ordering and paging tail of `get_questions`. */
  const PagingText: string := OrderLimit + "?" + OffsetWord + "?"
  const SetArchived: string := "UPDATE questions SET archived = 1"
  const DeleteFrom: string := "DELETE FROM questions"
  const WhereIdIn: string := " WHERE id IN ("
  const WhereStatus: string := " WHERE status = "
  const AndNotArchived: string := " AND archived = 0"
  const WhereId: string := " WHERE id = "

  /** The literal fragments hold no placeholder. */
  lemma InsertIntoPlain() ensures '?' !in InsertInto {}
  lemma InsertColumns1Plain() ensures '?' !in InsertColumns1 {}
  lemma InsertColumns2Plain() ensures '?' !in InsertColumns2 {}
  lemma InsertColumns3Plain() ensures '?' !in InsertColumns3 && '?' !in InsertEnd {}

  lemma QueryPlain()
    ensures '?' !in SelectQuestions && '?' !in OrderLimit && '?' !in OffsetWord
    ensures '?' !in " AND " && '?' !in " = "
    ensures '?' !in "status" && '?' !in "topic" && '?' !in "archived" && '?' !in "session_id"
  {
  }

  lemma StatementPlain()
    ensures '?' !in SetArchived && '?' !in DeleteFrom && '?' !in WhereIdIn
    ensures '?' !in WhereStatus && '?' !in AndNotArchived && '?' !in WhereId
    ensures '?' !in "UPDATE " && '?' !in " SET " && '?' !in ", " && '?' !in "," && '?' !in ")"
  {
  }

  // -------------------------------------------------- placeholder lists

  /** `n` copies of the string `"?"`. */
  function Questions(n: nat): (m: seq<string>)
    ensures |m| == n && forall i :: 0 <= i < n ==> m[i] == "?"
  {
    seq(n, i => "?")
  }

  /** `sep.join(["?"] * n)`: what `",".join("?" * n)` builds, and the
      `?, ?, ...` list of the INSERT. */
  function Placeholders(n: nat, sep: string): string {
    Join(sep, Questions(n))
  }

  /** The same list as pieces. */
  function MarkList(n: nat, sep: string): (ps: seq<Piece>)
    ensures Marks(ps) == n
    ensures '?' !in sep ==> Plain(ps)
  {
    if n == 0 then []
    else if n == 1 then
      assert [Mark][..0] == [];
      [Mark]
    else
      var ps := MarkList(n - 1, sep);
      Snoc(ps, Literal(sep));
      Snoc(ps + [Literal(sep)], Mark);
      ps + [Literal(sep)] + [Mark]
  }

  lemma {:induction false} MarkListText(n: nat, sep: string)
    ensures Render(MarkList(n, sep)) == Placeholders(n, sep)
  {
    if n == 1 {
      assert [Mark][..0] == [];
    } else if n > 1 {
      MarkListText(n - 1, sep);
      var ps := MarkList(n - 1, sep);
      assert MarkList(n, sep) == ps + [Literal(sep)] + [Mark];
      assert Render(MarkList(n, sep)) == Render(ps) + sep + "?" by {
        Snoc(ps, Literal(sep));
        Snoc(ps + [Literal(sep)], Mark);
      }
      assert Placeholders(n, sep) == Placeholders(n - 1, sep) + sep + "?" by {
        assert Questions(n) == Questions(n - 1) + ["?"];
        JoinSnoc(sep, Questions(n - 1), "?");
      }
    }
  }

  /** `",".join("?" * n)` for `n >= 1` is `?,?,...,?`: placeholders at the
      even positions, commas at the odd ones. */
  lemma {:induction false} PlaceholdersShape(n: nat)
    requires n >= 1
    ensures var p := Placeholders(n, ",");
      |p| == 2 * n - 1
      && forall k :: 0 <= k < |p| ==> p[k] == (if k % 2 == 0 then '?' else ',')
  {
    if n > 1 {
      PlaceholdersShape(n - 1);
      assert Questions(n) == Questions(n - 1) + ["?"];
      JoinSnoc(",", Questions(n - 1), "?");
    }
  }

  // ---------------------------------------------------------------- save

  /** `None` becomes SQL NULL. */
  function OptionalText(o: Option<string>): (v: SqlValue)
    ensures o.None? <==> v == Null
    ensures o.Some? ==> v == Text(o.value)
  {
    match o
    case None => Null
    case Some(t) => Text(t)
  }

  function OptionalReal(o: Option<real>): (v: SqlValue)
    ensures o.None? <==> v == Null
    ensures o.Some? ==> v == Real(o.value)
  {
    match o
    case None => Null
    case Some(x) => Real(x)
  }

  /** The arguments of `save_question`. */
  datatype Question = Question(
    filename: string,
    imagePath: Option<string>,
    topic: Option<string>,
    subtopic: Option<string>,
    status: Option<string>,
    solution: Option<string>,
    error: Option<string>,
    timeTaken: Option<real>,
    sessionId: Option<string>)

  /** `save_question(filename)` with every other argument at its default. */
  function NewQuestion(filename: string): (q: Question)
    ensures q.filename == filename && q.topic == Some("Genel") && q.status == Some("pending")
    ensures q.imagePath.None? && q.subtopic.None? && q.solution.None? && q.error.None?
            && q.timeTaken.None? && q.sessionId.None?
  {
    Question(filename, None, Some("Genel"), None, Some("pending"), None, None, None, None)
  }

  /** The INSERT of `save_question`, ten columns and ten placeholders. */
  function InsertQuestion(): seq<Piece> {
    [Literal(InsertHead)] + MarkList(10, ", ") + [Literal(InsertEnd)]
  }

  /** The INSERT text is the column list followed by ten comma-separated
      placeholders, and only those are `?`. */
  lemma InsertQuestionShape()
    ensures Marks(InsertQuestion()) == 10 && Plain(InsertQuestion())
    ensures Render(InsertQuestion()) == InsertHead + Placeholders(10, ", ") + InsertEnd
  {
    InsertIntoPlain();
    InsertColumns1Plain();
    InsertColumns2Plain();
    InsertColumns3Plain();
    var head := [Literal(InsertHead)];
    var marks := MarkList(10, ", ");
    var tail := [Literal(InsertEnd)];
    Single(Literal(InsertHead));
    Single(Literal(InsertEnd));
    StatementPlain();
    MarkListText(10, ", ");
    Concat(head, marks);
    Concat(head + marks, tail);
  }

  /** The statement `save_question` executes; `now` stands for
      `datetime.now().isoformat()`. The tenth parameter, `solved_at`, is
      set exactly for a finished question. */
  method SaveQuestion(q: Question, now: string) returns (st: Statement)
    ensures st.pieces == InsertQuestion() && Balanced(st)
    ensures Sql(st) == InsertHead + Placeholders(10, ", ") + InsertEnd
    ensures |st.params| == 10
    ensures st.params[..9] == [Text(q.filename), OptionalText(q.imagePath), OptionalText(q.topic),
                               OptionalText(q.subtopic), OptionalText(q.status), OptionalText(q.solution),
                               OptionalText(q.error), OptionalReal(q.timeTaken), OptionalText(q.sessionId)]
    ensures st.params[9] != Null <==> q.status == Some("success") || q.status == Some("failed")
    ensures st.params[9] != Null ==> st.params[9] == Text(now)
  {
    var solvedAt := if q.status == Some("success") || q.status == Some("failed") then Text(now) else Null;
    st := Statement(InsertQuestion(),
                    [Text(q.filename), OptionalText(q.imagePath), OptionalText(q.topic),
                     OptionalText(q.subtopic), OptionalText(q.status), OptionalText(q.solution),
                     OptionalText(q.error), OptionalReal(q.timeTaken), OptionalText(q.sessionId), solvedAt]);
    InsertQuestionShape();
    PlaceholdersMatch(st);
  }

  // ------------------------------------------------------------ updates

  /** `**kwargs`: keyword and value pairs, in the order of the call. */
  type Kwargs = seq<(string, SqlValue)>

  /** `kwargs.keys()`. */
  function Keys(kwargs: Kwargs): (ks: seq<string>)
    ensures |ks| == |kwargs| && forall i :: 0 <= i < |kwargs| ==> ks[i] == kwargs[i].0
  {
    seq(|kwargs|, i requires 0 <= i < |kwargs| => kwargs[i].0)
  }

  /** `list(kwargs.values())`. */
  function Values(kwargs: Kwargs): (vs: seq<SqlValue>)
    ensures |vs| == |kwargs| && forall i :: 0 <= i < |kwargs| ==> vs[i] == kwargs[i].1
  {
    seq(|kwargs|, i requires 0 <= i < |kwargs| => kwargs[i].1)
  }

  /** `f"{k} = ?"` for each key. */
  function SetTerms(ks: seq<string>): (ts: seq<string>)
    ensures |ts| == |ks| && forall i :: 0 <= i < |ks| ==> ts[i] == ks[i] + " = ?"
  {
    seq(|ks|, i requires 0 <= i < |ks| => ks[i] + " = ?")
  }

  lemma SetTermsSnoc(ks: seq<string>)
    requires ks != []
    ensures SetTerms(ks) == SetTerms(ks[..|ks| - 1]) + [ks[|ks| - 1] + " = ?"]
  {
  }

  /** One `k = ?` of a SET clause. */
  function SetItem(k: string): seq<Piece> {
    [Literal(k), Literal(" = "), Mark]
  }

  /** The `fields` string of the update builders, as pieces. */
  function SetList(ks: seq<string>): seq<Piece> {
    if ks == [] then []
    else if |ks| == 1 then SetItem(ks[0])
    else SetList(ks[..|ks| - 1]) + [Literal(", ")] + SetItem(ks[|ks| - 1])
  }

  lemma SetItemFacts(k: string)
    ensures Render(SetItem(k)) == k + " = ?"
    ensures Marks(SetItem(k)) == 1
    ensures '?' !in k ==> Plain(SetItem(k))
  {
    Triple(Literal(k), Literal(" = "), Mark);
  }

  /** The SET clause is `", ".join(f"{k} = ?" for k in keys)`: one
      placeholder per key, and no other `?` unless a key has one. */
  lemma {:induction false} SetListFacts(ks: seq<string>)
    ensures Render(SetList(ks)) == Join(", ", SetTerms(ks))
    ensures Marks(SetList(ks)) == |ks|
    ensures (forall i :: 0 <= i < |ks| ==> '?' !in ks[i]) ==> Plain(SetList(ks))
  {
    if |ks| == 1 {
      SetItemFacts(ks[0]);
    } else if |ks| > 1 {
      var init := ks[..|ks| - 1];
      var last := ks[|ks| - 1];
      SetListFacts(init);
      SetItemFacts(last);
      var front := SetList(init) + [Literal(", ")];
      Snoc(SetList(init), Literal(", "));
      Concat(front, SetItem(last));
      SetTermsSnoc(ks);
      JoinSnoc(", ", SetTerms(init), last + " = ?");
      StatementPlain();
    }
  }

  /** `f"UPDATE {table} SET {fields} WHERE id = ?"`. */
  function UpdatePieces(table: string, ks: seq<string>): seq<Piece> {
    [Literal("UPDATE "), Literal(table), Literal(" SET ")] + SetList(ks) + [Literal(WhereId), Mark]
  }

  lemma UpdateText(table: string, ks: seq<string>)
    ensures Render(UpdatePieces(table, ks)) == "UPDATE " + table + " SET " + Join(", ", SetTerms(ks)) + WhereId + "?"
    ensures Marks(UpdatePieces(table, ks)) == |ks| + 1
    ensures '?' !in table && (forall i :: 0 <= i < |ks| ==> '?' !in ks[i]) ==> Plain(UpdatePieces(table, ks))
  {
    var head := [Literal("UPDATE "), Literal(table), Literal(" SET ")];
    var tail := [Literal(WhereId), Mark];
    Triple(Literal("UPDATE "), Literal(table), Literal(" SET "));
    Pair(Literal(WhereId), Mark);
    SetListFacts(ks);
    Concat(head, SetList(ks));
    Concat(head + SetList(ks), tail);
    StatementPlain();
  }

  /** The statement of `update_question` (table `questions`, an integer id)
      and of `update_session` (table `sessions`, a text id): nothing is
      executed without keyword arguments; otherwise the SET clause lists
      the keys in call order and the parameters are their values followed
      by the id. */
  method UpdateStatement(table: string, id: SqlValue, kwargs: Kwargs) returns (r: Option<Statement>)
    ensures r.None? <==> kwargs == []
    ensures r.Some? ==> r.value.pieces == UpdatePieces(table, Keys(kwargs))
                        && r.value.params == Values(kwargs) + [id]
                        && Sql(r.value) == "UPDATE " + table + " SET " + Join(", ", SetTerms(Keys(kwargs))) + WhereId + "?"
    ensures r.Some? && '?' !in table && (forall i :: 0 <= i < |kwargs| ==> '?' !in kwargs[i].0)
            ==> Balanced(r.value)
  {
    if kwargs == [] {
      return None;
    }
    var fields: seq<Piece> := [];
    var values: seq<SqlValue> := [];
    for i := 0 to |kwargs|
      invariant fields == SetList(Keys(kwargs[..i]))
      invariant values == Values(kwargs[..i])
    {
      assert Keys(kwargs[..i + 1]) == Keys(kwargs[..i]) + [kwargs[i].0];
      assert Keys(kwargs[..i + 1])[..i] == Keys(kwargs[..i]);
      if i > 0 {
        fields := fields + [Literal(", ")];
      }
      fields := fields + SetItem(kwargs[i].0);
      values := values + [kwargs[i].1];
    }
    assert kwargs[..|kwargs|] == kwargs;
    values := values + [id];
    var st := Statement([Literal("UPDATE "), Literal(table), Literal(" SET ")] + fields + [Literal(WhereId), Mark], values);
    UpdateText(table, Keys(kwargs));
    if '?' !in table && (forall i :: 0 <= i < |kwargs| ==> '?' !in kwargs[i].0) {
      PlaceholdersMatch(st);
    }
    r := Some(st);
  }

  /** `update_question(question_id, **kwargs)`. */
  method UpdateQuestion(questionId: int, kwargs: Kwargs) returns (r: Option<Statement>)
    ensures r.None? <==> kwargs == []
    ensures r.Some? ==> r.value.pieces == UpdatePieces("questions", Keys(kwargs))
                        && r.value.params == Values(kwargs) + [Int(questionId)]
    ensures r.Some? && (forall i :: 0 <= i < |kwargs| ==> '?' !in kwargs[i].0) ==> Balanced(r.value)
  {
    QueryPlain();
    r := UpdateStatement("questions", Int(questionId), kwargs);
  }

  /** `update_session(session_id, **kwargs)`. */
  method UpdateSession(sessionId: string, kwargs: Kwargs) returns (r: Option<Statement>)
    ensures r.None? <==> kwargs == []
    ensures r.Some? ==> r.value.pieces == UpdatePieces("sessions", Keys(kwargs))
                        && r.value.params == Values(kwargs) + [Text(sessionId)]
    ensures r.Some? && (forall i :: 0 <= i < |kwargs| ==> '?' !in kwargs[i].0) ==> Balanced(r.value)
  {
    assert '?' !in "sessions";
    r := UpdateStatement("sessions", Text(sessionId), kwargs);
  }

  // -------------------------------------------------------------- queries

  /** The arguments of `get_questions`; `limit` and `offset` default to 100 and 0. */
  datatype Filters = Filters(
    status: Option<string>,
    topic: Option<string>,
    archived: Option<bool>,
    sessionId: Option<string>,
    limit: int,
    offset: int)

  /** `if s:` for an optional string: present and not empty. */
  predicate Truthy(s: Option<string>) {
    s.Some? && s.value != ""
  }

  /** One `AND column = ?` filter and the value bound to it. */
  datatype Condition = Condition(column: string, value: SqlValue)

  /** `AND status = ?` when `status` is truthy. */
  function StatusFilter(f: Filters): seq<Condition> {
    if Truthy(f.status) then [Condition("status", Text(f.status.value))] else []
  }

  /** `AND topic = ?` when `topic` is truthy. */
  function TopicFilter(f: Filters): seq<Condition> {
    if Truthy(f.topic) then [Condition("topic", Text(f.topic.value))] else []
  }

  /** `AND archived = ?` when `archived` is not `None`, bound to 1 or 0. */
  function ArchivedFilter(f: Filters): seq<Condition> {
    if f.archived.Some? then [Condition("archived", Int(if f.archived.value then 1 else 0))] else []
  }

  /** `AND session_id = ?` when `session_id` is truthy. */
  function SessionFilter(f: Filters): seq<Condition> {
    if Truthy(f.sessionId) then [Condition("session_id", Text(f.sessionId.value))] else []
  }

  /** The filters `get_questions` applies, in the order it tests them. */
  function Conditions(f: Filters): seq<Condition> {
    StatusFilter(f) + TopicFilter(f) + ArchivedFilter(f) + SessionFilter(f)
  }

  /** The position of a filter column in the fixed order status, topic,
      archived, session_id. */
  function Rank(column: string): nat {
    if column == "status" then 0
    else if column == "topic" then 1
    else if column == "archived" then 2
    else 3
  }

  /** The filters keep the fixed column order and use only the four columns. */
  lemma ConditionsOrdered(f: Filters)
    ensures forall i, j :: 0 <= i < j < |Conditions(f)| ==> Rank(Conditions(f)[i].column) < Rank(Conditions(f)[j].column)
    ensures forall i :: 0 <= i < |Conditions(f)| ==> Conditions(f)[i].column in {"status", "topic", "archived", "session_id"}
  {
  }

  /** Each filter is applied exactly when its argument asks for it (a
      truthy string, an `archived` that is not `None`), and with its value. */
  lemma ConditionsExactly(f: Filters)
    ensures Truthy(f.status) <==> Condition("status", Text(f.status.GetOr(""))) in Conditions(f)
    ensures Truthy(f.topic) <==> Condition("topic", Text(f.topic.GetOr(""))) in Conditions(f)
    ensures f.archived.Some? <==> Condition("archived", Int(if f.archived == Some(true) then 1 else 0)) in Conditions(f)
    ensures Truthy(f.sessionId) <==> Condition("session_id", Text(f.sessionId.GetOr(""))) in Conditions(f)
    ensures forall c :: c in Conditions(f) ==> c.column == "status" ==> c == Condition("status", Text(f.status.GetOr("")))
    ensures forall c :: c in Conditions(f) ==> c.column == "topic" ==> c == Condition("topic", Text(f.topic.GetOr("")))
    ensures forall c :: c in Conditions(f) ==> c.column == "archived" ==> c == Condition("archived", Int(if f.archived == Some(true) then 1 else 0))
    ensures forall c :: c in Conditions(f) ==> c.column == "session_id" ==> c == Condition("session_id", Text(f.sessionId.GetOr("")))
  {
    ConditionMember(f, Condition("status", Text(f.status.GetOr(""))));
    ConditionMember(f, Condition("topic", Text(f.topic.GetOr(""))));
    ConditionMember(f, Condition("archived", Int(if f.archived == Some(true) then 1 else 0)));
    ConditionMember(f, Condition("session_id", Text(f.sessionId.GetOr(""))));
    forall c | c in Conditions(f)
      ensures c.column == "status" ==> c == Condition("status", Text(f.status.GetOr("")))
      ensures c.column == "topic" ==> c == Condition("topic", Text(f.topic.GetOr("")))
      ensures c.column == "archived" ==> c == Condition("archived", Int(if f.archived == Some(true) then 1 else 0))
      ensures c.column == "session_id" ==> c == Condition("session_id", Text(f.sessionId.GetOr("")))
    {
      ConditionMember(f, c);
    }
  }

  /** A filter is in the list exactly when one of the four parts holds it. */
  lemma ConditionMember(f: Filters, c: Condition)
    ensures c in Conditions(f)
            <==> c in StatusFilter(f) || c in TopicFilter(f) || c in ArchivedFilter(f) || c in SessionFilter(f)
  {
  }

  /** `" AND column = ?"`. */
  function Clause(c: Condition): seq<Piece> {
    [Literal(" AND " + c.column + " = "), Mark]
  }

  /** The filter clauses one after another. */
  function ClauseList(cs: seq<Condition>): seq<Piece> {
    if cs == [] then [] else ClauseList(cs[..|cs| - 1]) + Clause(cs[|cs| - 1])
  }

  /** The values bound to the filter clauses. */
  function ConditionValues(cs: seq<Condition>): (vs: seq<SqlValue>)
    ensures |vs| == |cs| && forall i :: 0 <= i < |cs| ==> vs[i] == cs[i].value
  {
    seq(|cs|, i requires 0 <= i < |cs| => cs[i].value)
  }

  /** `" AND column = ?"` as text. */
  function ClauseString(c: Condition): string {
    " AND " + c.column + " = ?"
  }

  /** The text the filter clauses add to the query. */
  function ClauseText(cs: seq<Condition>): string {
    if cs == [] then "" else ClauseText(cs[..|cs| - 1]) + ClauseString(cs[|cs| - 1])
  }

  lemma ClauseFacts(c: Condition)
    ensures Render(Clause(c)) == ClauseString(c)
    ensures Marks(Clause(c)) == 1
    ensures '?' !in c.column ==> Plain(Clause(c))
  {
    var lit := Literal(" AND " + c.column + " = ");
    assert Clause(c) == [lit] + [Mark];
    Single(lit);
    Snoc([lit], Mark);
    QueryPlain();
  }

  /** The clauses render as their text, with one placeholder per filter and
      no other `?` unless a column name has one. */
  lemma {:induction false} ClauseListFacts(cs: seq<Condition>)
    ensures Render(ClauseList(cs)) == ClauseText(cs)
    ensures Marks(ClauseList(cs)) == |cs|
    ensures (forall i :: 0 <= i < |cs| ==> '?' !in cs[i].column) ==> Plain(ClauseList(cs))
  {
    if cs != [] {
      var init := cs[..|cs| - 1];
      var c := cs[|cs| - 1];
      ClauseListFacts(init);
      ClauseFacts(c);
      Concat(ClauseList(init), Clause(c));
    }
  }

  /** `" ORDER BY created_at DESC LIMIT ? OFFSET ?"`. */
  function Paging(): seq<Piece> {
    [Literal(OrderLimit), Mark, Literal(OffsetWord), Mark]
  }

  lemma PagingFacts()
    ensures Render(Paging()) == PagingText
    ensures Marks(Paging()) == 2 && Plain(Paging())
  {
    assert Paging() == [Literal(OrderLimit)] + [Mark] + [Literal(OffsetWord)] + [Mark];
    Single(Literal(OrderLimit));
    Snoc([Literal(OrderLimit)], Mark);
    Snoc([Literal(OrderLimit)] + [Mark], Literal(OffsetWord));
    Snoc([Literal(OrderLimit)] + [Mark] + [Literal(OffsetWord)], Mark);
    QueryPlain();
  }

  /** Adding one filter to the query under construction. */
  method AddCondition(pieces: seq<Piece>, params: seq<SqlValue>, ghost cs: seq<Condition>, c: Condition)
    returns (pieces': seq<Piece>, params': seq<SqlValue>)
    requires pieces == [Literal(SelectQuestions)] + ClauseList(cs) && params == ConditionValues(cs)
    ensures pieces' == [Literal(SelectQuestions)] + ClauseList(cs + [c])
    ensures params' == ConditionValues(cs + [c])
  {
    assert (cs + [c])[..|cs|] == cs;
    pieces' := pieces + Clause(c);
    params' := params + [c.value];
  }

  /** The first half of `get_questions`: the fixed SELECT with one
      `AND column = ?` per applied filter, and the values bound to them. */
  method FilteredSelect(f: Filters) returns (query: seq<Piece>, params: seq<SqlValue>)
    ensures query == [Literal(SelectQuestions)] + ClauseList(Conditions(f))
    ensures params == ConditionValues(Conditions(f))
  {
    query := [Literal(SelectQuestions)];
    params := [];
    ghost var s1 := StatusFilter(f);
    ghost var s2 := s1 + TopicFilter(f);
    ghost var s3 := s2 + ArchivedFilter(f);
    ghost var s4 := s3 + SessionFilter(f);
    if Truthy(f.status) {
      query, params := AddCondition(query, params, [], Condition("status", Text(f.status.value)));
    }
    if Truthy(f.topic) {
      query, params := AddCondition(query, params, s1, Condition("topic", Text(f.topic.value)));
    } else {
      assert s2 == s1;
    }
    if f.archived.Some? {
      query, params := AddCondition(query, params, s2, Condition("archived", Int(if f.archived.value then 1 else 0)));
    } else {
      assert s3 == s2;
    }
    if Truthy(f.sessionId) {
      query, params := AddCondition(query, params, s3, Condition("session_id", Text(f.sessionId.value)));
    } else {
      assert s4 == s3;
    }
    assert s4 == Conditions(f);
  }

  /** The statement `get_questions` executes: the fixed SELECT, then one
      `AND column = ?` per applied filter in the order status, topic,
      archived, session_id, then the ordering and paging; the parameters
      are the filter values followed by `limit` and `offset`, one per `?`. */
  method GetQuestions(f: Filters) returns (st: Statement)
    ensures st.pieces == QueryPieces(Conditions(f))
    ensures st.params == ConditionValues(Conditions(f)) + [Int(f.limit), Int(f.offset)]
    ensures Sql(st) == SelectQuestions + ClauseText(Conditions(f)) + PagingText
    ensures Balanced(st)
  {
    var query, params := FilteredSelect(f);
    query := query + Paging();
    params := params + [Int(f.limit), Int(f.offset)];
    st := Statement(query, params);
    ghost var cs := Conditions(f);
    assert |st.params| == |cs| + 2;
    ConditionsOrdered(f);
    QueryFacts(cs);
    QueryPlainPieces(cs);
    PlaceholdersMatch(st);
  }

  /** The SELECT of `get_questions` for the given filters, as pieces. */
  function QueryPieces(cs: seq<Condition>): seq<Piece> {
    [Literal(SelectQuestions)] + ClauseList(cs) + Paging()
  }

  /** The text and the placeholder count of a SELECT with the given filters. */
  lemma QueryFacts(cs: seq<Condition>)
    ensures Render(QueryPieces(cs)) == SelectQuestions + ClauseText(cs) + PagingText
    ensures Marks(QueryPieces(cs)) == |cs| + 2
  {
    var head := [Literal(SelectQuestions)];
    var clauses := ClauseList(cs);
    Single(Literal(SelectQuestions));
    assert Render(head) == SelectQuestions;
    ClauseListFacts(cs);
    assert Render(clauses) == ClauseText(cs);
    PagingFacts();
    Concat(head, clauses);
    assert Render(head + clauses) == SelectQuestions + ClauseText(cs);
    Concat(head + clauses, Paging());
    assert QueryPieces(cs) == head + clauses + Paging();
  }

  /** With the four filter columns of `get_questions`, the placeholders are
      the only `?` of the SELECT. */
  lemma QueryPlainPieces(cs: seq<Condition>)
    requires forall i :: 0 <= i < |cs| ==> cs[i].column in {"status", "topic", "archived", "session_id"}
    ensures Plain(QueryPieces(cs))
  {
    QueryPlain();
    Single(Literal(SelectQuestions));
    ClauseListFacts(cs);
    PagingFacts();
    Concat([Literal(SelectQuestions)], ClauseList(cs));
    Concat([Literal(SelectQuestions)] + ClauseList(cs), Paging());
  }

  /** `get_failed_questions()`: the failed questions that are not archived,
      first page of 100. */
  method GetFailedQuestions() returns (st: Statement)
    ensures st.pieces == QueryPieces([Condition("status", Text("failed")), Condition("archived", Int(0))])
    ensures st.params == [Text("failed"), Int(0), Int(100), Int(0)]
    ensures Sql(st) == SelectQuestions + " AND status = ?" + " AND archived = ?" + PagingText
    ensures Balanced(st)
  {
    var f := Filters(Some("failed"), None, Some(false), None, 100, 0);
    var cs := [Condition("status", Text("failed")), Condition("archived", Int(0))];
    assert Conditions(f) == cs;
    st := GetQuestions(f);
    assert ClauseText(cs) == " AND status = ?" + " AND archived = ?" by {
      assert cs[..1][..0] == [];
      assert cs[..1] == [cs[0]];
      assert ClauseString(cs[0]) == " AND status = ?";
      assert ClauseString(cs[1]) == " AND archived = ?";
    }
  }


  // ------------------------------------------------- archive and delete

  /** The ids bound to an `IN (...)` list, in order. */
  function IdParams(ids: seq<int>): (ps: seq<SqlValue>)
    ensures |ps| == |ids| && forall i :: 0 <= i < |ids| ==> ps[i] == Int(ids[i])
  {
    seq(|ids|, i requires 0 <= i < |ids| => Int(ids[i]))
  }

  /** `f"{verb} WHERE id IN ({placeholders})"` with `n` placeholders. */
  function InList(verb: string, n: nat): seq<Piece> {
    [Literal(verb), Literal(WhereIdIn)] + MarkList(n, ",") + [Literal(")")]
  }

  lemma InListFacts(verb: string, n: nat)
    ensures Render(InList(verb, n)) == verb + WhereIdIn + Placeholders(n, ",") + ")"
    ensures Marks(InList(verb, n)) == n
    ensures '?' !in verb ==> Plain(InList(verb, n))
  {
    var head := [Literal(verb), Literal(WhereIdIn)];
    var marks := MarkList(n, ",");
    assert head == [Literal(verb)] + [Literal(WhereIdIn)];
    Single(Literal(verb));
    Snoc([Literal(verb)], Literal(WhereIdIn));
    Single(Literal(")"));
    MarkListText(n, ",");
    StatementPlain();
    Concat(head, marks);
    Concat(head + marks, [Literal(")")]);
  }

  /** `"{verb} WHERE status = ?"`. */
  function ByStatus(verb: string): seq<Piece> {
    [Literal(verb), Literal(WhereStatus), Mark]
  }

  lemma ByStatusFacts(verb: string)
    ensures Render(ByStatus(verb)) == verb + WhereStatus + "?"
    ensures Render(ByStatus(verb) + [Literal(AndNotArchived)]) == verb + WhereStatus + "?" + AndNotArchived
    ensures Marks(ByStatus(verb)) == 1 && Marks(ByStatus(verb) + [Literal(AndNotArchived)]) == 1
    ensures '?' !in verb ==> Plain(ByStatus(verb)) && Plain(ByStatus(verb) + [Literal(AndNotArchived)])
  {
    assert ByStatus(verb) == [Literal(verb)] + [Literal(WhereStatus)] + [Mark];
    Single(Literal(verb));
    Snoc([Literal(verb)], Literal(WhereStatus));
    Snoc([Literal(verb)] + [Literal(WhereStatus)], Mark);
    Snoc(ByStatus(verb), Literal(AndNotArchived));
    StatementPlain();
  }

  /** The statement `archive_questions` executes: with ids, an `IN` list
      of one `?` per id, bound to the ids in order; without, every
      not yet archived question of the given status. */
  method ArchiveQuestions(ids: seq<int>, status: string) returns (st: Statement)
    ensures ids != [] ==> st == Statement(InList(SetArchived, |ids|), IdParams(ids))
                          && Sql(st) == SetArchived + WhereIdIn + Placeholders(|ids|, ",") + ")"
    ensures ids == [] ==> st == Statement(ByStatus(SetArchived) + [Literal(AndNotArchived)], [Text(status)])
                          && Sql(st) == SetArchived + WhereStatus + "?" + AndNotArchived
    ensures Balanced(st)
  {
    StatementPlain();
    if ids != [] {
      st := Statement(InList(SetArchived, |ids|), IdParams(ids));
      InListFacts(SetArchived, |ids|);
    } else {
      st := Statement(ByStatus(SetArchived) + [Literal(AndNotArchived)], [Text(status)]);
      ByStatusFacts(SetArchived);
    }
    PlaceholdersMatch(st);
  }

  /** The statement `delete_questions` executes, ids first, then a truthy
      status, then `all_questions`; with none of them nothing is executed
      (and 0 is returned). */
  method DeleteQuestions(ids: seq<int>, status: Option<string>, allQuestions: bool) returns (r: Option<Statement>)
    ensures r.None? <==> ids == [] && !Truthy(status) && !allQuestions
    ensures ids != [] ==> r == Some(Statement(InList(DeleteFrom, |ids|), IdParams(ids)))
                          && Sql(r.value) == DeleteFrom + WhereIdIn + Placeholders(|ids|, ",") + ")"
    ensures ids == [] && Truthy(status) ==> r == Some(Statement(ByStatus(DeleteFrom), [Text(status.value)]))
                                            && Sql(r.value) == DeleteFrom + WhereStatus + "?"
    ensures ids == [] && !Truthy(status) && allQuestions ==> r == Some(Statement([Literal(DeleteFrom)], []))
                                                             && Sql(r.value) == DeleteFrom
    ensures r.Some? ==> Balanced(r.value)
  {
    StatementPlain();
    var st;
    if ids != [] {
      st := Statement(InList(DeleteFrom, |ids|), IdParams(ids));
      InListFacts(DeleteFrom, |ids|);
    } else if Truthy(status) {
      st := Statement(ByStatus(DeleteFrom), [Text(status.value)]);
      ByStatusFacts(DeleteFrom);
    } else if allQuestions {
      st := Statement([Literal(DeleteFrom)], []);
      Single(Literal(DeleteFrom));
    } else {
      return None;
    }
    PlaceholdersMatch(st);
    r := Some(st);
  }
}
