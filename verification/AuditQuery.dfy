/** Filtering and paging the audit log: the WHERE text that is built, what SQL makes of it, and the pages. */
module AuditQuery {
  import opened Wrappers
  import opened Text
  import opened Calendar
  import opened Timestamps

  datatype AuditRow = AuditRow(
    timestamp: string,
    adminUsername: string,
    action: string,
    result: string,
    keycloakTarget: Option<string>,
    matrixTarget: Option<string>)

  datatype AuditFilter = AuditFilter(
    action: Option<string>,
    result: Option<string>,
    adminUsername: Option<string>,
    from: Option<string>,
    to: Option<string>)

  /** What the filter means. */
  predicate Accepts(f: AuditFilter, r: AuditRow) {
    && (f.action.Some? ==> r.action == f.action.value)
    && (f.result.Some? ==> r.result == f.result.value)
    && (f.adminUsername.Some? ==> r.adminUsername == f.adminUsername.value)
    && (f.from.Some? ==> FromTest(r.timestamp, f.from.value))
    && (f.to.Some? ==> ToTest(r.timestamp, f.to.value))
  }

  // ----- Building the clause -----

  function Join(parts: seq<string>, separator: string): string {
    if parts == [] then "" else if |parts| == 1 then parts[0] else parts[0] + separator + Join(parts[1..], separator)
  }

  /** One possible condition: its column and operator, and the value bound to its placeholder if the filter sets it. */
  datatype Slot = Slot(column: string, op: string, value: Option<string>)

  function TextOf(s: Slot): string {
    s.column + " " + s.op + " ?"
  }

  /** The conditions in the order they are pushed. */
  function Slots(f: AuditFilter): seq<Slot> {
    [Slot("action", "=", f.action),
     Slot("result", "=", f.result),
     Slot("admin_username", "=", f.adminUsername),
     Slot("timestamp", ">=", f.from),
     Slot("timestamp", "<=", if f.to.Some? then Some(f.to.value + "T23:59:59Z") else None)]
  }

  /** The texts of the conditions that are set, and their values, in step. */
  function Texts(slots: seq<Slot>): seq<string> {
    if slots == [] then [] else (if slots[0].value.Some? then [TextOf(slots[0])] else []) + Texts(slots[1..])
  }

  function Values(slots: seq<Slot>): seq<string> {
    if slots == [] then [] else (if slots[0].value.Some? then [slots[0].value.value] else []) + Values(slots[1..])
  }

  function ClauseOf(conditions: seq<string>): string {
    if conditions == [] then "" else "WHERE " + Join(conditions, " AND ")
  }

  function WhereText(f: AuditFilter): string {
    ClauseOf(Texts(Slots(f)))
  }

  method Push(conditions: seq<string>, values: seq<string>, ghost pushed: seq<Slot>, text: string, ghost s: Slot,
              value: Option<string>)
    returns (conditions': seq<string>, values': seq<string>)
    requires conditions == Texts(pushed) && values == Values(pushed)
    requires s.value == value && text == TextOf(s)
    ensures conditions' == Texts(pushed + [s]) && values' == Values(pushed + [s])
  {
    conditions', values' := conditions, values;
    PushedTexts(pushed, s);
    PushedValues(pushed, s);
    if value.Some? {
      conditions', values' := conditions' + [text], values' + [value.value];
    }
  }

  lemma {:induction false} PushedTexts(pushed: seq<Slot>, s: Slot)
    ensures Texts(pushed + [s]) == Texts(pushed) + if s.value.Some? then [TextOf(s)] else []
  {
    if pushed == [] {
      assert [] + [s] == [s] && [s][1..] == [];
    } else {
      PushedTexts(pushed[1..], s);
      assert (pushed + [s])[1..] == pushed[1..] + [s];
    }
  }

  lemma {:induction false} PushedValues(pushed: seq<Slot>, s: Slot)
    ensures Values(pushed + [s]) == Values(pushed) + if s.value.Some? then [s.value.value] else []
  {
    if pushed == [] {
      assert [] + [s] == [s] && [s][1..] == [];
    } else {
      PushedValues(pushed[1..], s);
      assert (pushed + [s])[1..] == pushed[1..] + [s];
    }
  }

  /** The conditions and the values are pushed in step, one pair for each field that is set. */
  method BuildWhereClause(f: AuditFilter) returns (clause: string, values: seq<string>)
    ensures clause == WhereText(f) && values == Values(Slots(f))
  {
    var conditions: seq<string> := [];
    values := [];
    ghost var s := Slots(f);
    ghost var pushed: seq<Slot> := [];
    conditions, values := Push(conditions, values, pushed, "action = ?", s[0], f.action);
    pushed := pushed + [s[0]];
    conditions, values := Push(conditions, values, pushed, "result = ?", s[1], f.result);
    pushed := pushed + [s[1]];
    conditions, values := Push(conditions, values, pushed, "admin_username = ?", s[2], f.adminUsername);
    pushed := pushed + [s[2]];
    conditions, values := Push(conditions, values, pushed, "timestamp >= ?", s[3], f.from);
    pushed := pushed + [s[3]];
    var to := if f.to.Some? then Some(f.to.value + "T23:59:59Z") else None;
    conditions, values := Push(conditions, values, pushed, "timestamp <= ?", s[4], to);
    assert pushed + [s[4]] == s;
    clause := if conditions == [] then "" else "WHERE " + Join(conditions, " AND ");
  }

  // ----- What SQL makes of the clause -----

  /** Cut a text at every space. */
  function Split(s: string): (words: seq<string>)
    ensures words != []
  {
    if s == "" then [""]
    else
      var rest := Split(s[1..]);
      if s[0] == ' ' then [""] + rest else [[s[0]] + rest[0]] + rest[1..]
  }

  lemma {:induction false} SplitAtSpace(a: string, b: string)
    requires ' ' !in a
    ensures Split(a + " " + b) == [a] + Split(b)
  {
    if a == "" {
      assert "" + " " + b == " " + b;
    } else {
      assert (a + " " + b)[1..] == a[1..] + " " + b;
      SplitAtSpace(a[1..], b);
      assert a == [a[0]] + a[1..];
    }
  }

  lemma {:induction false} SplitWord(a: string)
    requires ' ' !in a
    ensures Split(a) == [a]
  {
    if a == "" {
    } else {
      SplitWord(a[1..]);
      assert a == [a[0]] + a[1..];
    }
  }

  function Column(r: AuditRow, name: string): Option<string> {
    if name == "action" then Some(r.action)
    else if name == "result" then Some(r.result)
    else if name == "admin_username" then Some(r.adminUsername)
    else if name == "timestamp" then Some(r.timestamp)
    else None
  }

  /** Text comparison; anything else is a syntax error. */
  function Compare(a: string, op: string, b: string): Option<bool> {
    if op == "=" then Some(a == b)
    else if op == ">=" then Some(!Less(a, b))
    else if op == "<=" then Some(!Less(b, a))
    else None
  }

  /** `column op ? AND column op ? ...` with one value for each placeholder, in order. */
  function EvalConditions(words: seq<string>, values: seq<string>, r: AuditRow): Option<bool>
    decreases |words|
  {
    if |words| < 3 || words[2] != "?" || values == [] || Column(r, words[0]).None? then None
    else
      var first := Compare(Column(r, words[0]).value, words[1], values[0]);
      if |words| == 3 then (if |values| == 1 then first else None)
      else if words[3] != "AND" then None
      else
        var rest := EvalConditions(words[4..], values[1..], r);
        if first.None? || rest.None? then None else Some(first.value && rest.value)
  }

  /** Whether a row is selected; `None` is an error of the statement. */
  function EvalWhere(clause: string, values: seq<string>, r: AuditRow): Option<bool> {
    if clause == "" then (if values == [] then Some(true) else None)
    else
      var words := Split(clause);
      if words[0] != "WHERE" then None else EvalConditions(words[1..], values, r)
  }

  /** A condition the evaluator understands. */
  predicate Readable(s: Slot, r: AuditRow) {
    && ' ' !in s.column && ' ' !in s.op
    && Column(r, s.column).Some?
    && s.op in {"=", ">=", "<="}
  }

  predicate SlotHolds(s: Slot, r: AuditRow)
    requires Readable(s, r)
  {
    s.value.Some? ==> Compare(Column(r, s.column).value, s.op, s.value.value).value
  }

  predicate AllHold(slots: seq<Slot>, r: AuditRow)
    requires forall s | s in slots :: Readable(s, r)
  {
    slots == [] || (SlotHolds(slots[0], r) && AllHold(slots[1..], r))
  }

  lemma SplitText(s: Slot, r: AuditRow)
    requires Readable(s, r)
    ensures Split(TextOf(s)) == [s.column, s.op, "?"]
  {
    SplitWord("?");
    SplitAtSpace(s.op, "?");
    SplitAtSpace(s.column, s.op + " " + "?");
    assert TextOf(s) == s.column + " " + (s.op + " " + "?");
  }

  lemma SplitTextThen(s: Slot, r: AuditRow, rest: string)
    requires Readable(s, r)
    ensures Split(TextOf(s) + " AND " + rest) == [s.column, s.op, "?", "AND"] + Split(rest)
  {
    var tail1 := "AND" + " " + rest;
    var tail2 := "?" + " " + tail1;
    var tail3 := s.op + " " + tail2;
    SplitAtSpace("AND", rest);
    SplitAtSpace("?", tail1);
    SplitAtSpace(s.op, tail2);
    SplitAtSpace(s.column, tail3);
    JoinTail(s, rest);
  }

  lemma JoinTail(s: Slot, rest: string)
    ensures TextOf(s) + " AND " + rest == s.column + " " + (s.op + " " + ("?" + " " + ("AND" + " " + rest)))
  {
  }

  /** The joined conditions, read back as SQL, are the conjunction of the conditions that are set. */
  lemma {:induction false} JoinedConditions(slots: seq<Slot>, r: AuditRow)
    requires forall s | s in slots :: Readable(s, r)
    ensures Texts(slots) == [] ==> Values(slots) == [] && AllHold(slots, r)
    ensures Texts(slots) != [] ==>
      EvalConditions(Split(Join(Texts(slots), " AND ")), Values(slots), r) == Some(AllHold(slots, r))
  {
    if slots == [] {
    } else {
      var s, rest := slots[0], slots[1..];
      JoinedConditions(rest, r);
      if s.value.None? {
        assert Texts(slots) == Texts(rest) && Values(slots) == Values(rest);
      } else {
        FirstCondition(s, rest, r);
        assert slots == [s] + rest;
      }
    }
  }

  lemma FirstCondition(s: Slot, rest: seq<Slot>, r: AuditRow)
    requires Readable(s, r) && (forall x | x in rest :: Readable(x, r)) && s.value.Some?
    requires Texts(rest) == [] ==> Values(rest) == [] && AllHold(rest, r)
    requires Texts(rest) != [] ==>
      EvalConditions(Split(Join(Texts(rest), " AND ")), Values(rest), r) == Some(AllHold(rest, r))
    ensures EvalConditions(Split(Join([TextOf(s)] + Texts(rest), " AND ")), [s.value.value] + Values(rest), r)
         == Some(SlotHolds(s, r) && AllHold(rest, r))
  {
    var texts, values := [TextOf(s)] + Texts(rest), [s.value.value] + Values(rest);
    assert texts[1..] == Texts(rest) && values[1..] == Values(rest);
    if Texts(rest) == [] {
      SplitText(s, r);
      assert texts == [TextOf(s)] && Join(texts, " AND ") == TextOf(s);
    } else {
      var tail := Join(Texts(rest), " AND ");
      SplitTextThen(s, r, tail);
      assert Join(texts, " AND ") == TextOf(s) + " AND " + tail;
      var words := [s.column, s.op, "?", "AND"] + Split(tail);
      assert words[4..] == Split(tail);
    }
  }

  lemma SlotsAreReadable(f: AuditFilter, r: AuditRow)
    ensures forall s | s in Slots(f) :: Readable(s, r)
  {
  }

  lemma AllOfFive(s: seq<Slot>, r: AuditRow)
    requires |s| == 5 && forall x | x in s :: Readable(x, r)
    ensures Readable(s[0], r) && Readable(s[1], r) && Readable(s[2], r) && Readable(s[3], r) && Readable(s[4], r)
    ensures AllHold(s, r) <==>
      SlotHolds(s[0], r) && SlotHolds(s[1], r) && SlotHolds(s[2], r) && SlotHolds(s[3], r) && SlotHolds(s[4], r)
  {
    assert s[1..][1..] == s[2..] && s[2..][1..] == s[3..] && s[3..][1..] == s[4..] && s[4..][1..] == [];
    assert AllHold(s[4..], r) <==> SlotHolds(s[4], r);
    assert AllHold(s[3..], r) <==> SlotHolds(s[3], r) && AllHold(s[4..], r);
    assert AllHold(s[2..], r) <==> SlotHolds(s[2], r) && AllHold(s[3..], r);
    assert AllHold(s[1..], r) <==> SlotHolds(s[1], r) && AllHold(s[2..], r);
  }

  lemma SlotsMeanFilter(f: AuditFilter, r: AuditRow)
    ensures forall s | s in Slots(f) :: Readable(s, r)
    ensures AllHold(Slots(f), r) <==> Accepts(f, r)
  {
    SlotsAreReadable(f, r);
    AllOfFive(Slots(f), r);
  }

  lemma ClauseMeansConjunction(slots: seq<Slot>, r: AuditRow)
    requires forall s | s in slots :: Readable(s, r)
    ensures EvalWhere(ClauseOf(Texts(slots)), Values(slots), r) == Some(AllHold(slots, r))
  {
    JoinedConditions(slots, r);
    if Texts(slots) != [] {
      var joined := Join(Texts(slots), " AND ");
      SplitAtSpace("WHERE", joined);
      assert ClauseOf(Texts(slots)) == "WHERE" + " " + joined;
      assert (["WHERE"] + Split(joined))[1..] == Split(joined);
    }
  }

  /** For every filter and row: the text with its bound values selects the row exactly when the filter accepts it. */
  lemma WhereMeansFilter(f: AuditFilter, r: AuditRow)
    ensures EvalWhere(WhereText(f), Values(Slots(f)), r) == Some(Accepts(f, r))
  {
    SlotsMeanFilter(f, r);
    ClauseMeansConjunction(Slots(f), r);
  }

  // ----- Pages -----

  const PAGE_SIZE := 50

  /** The rows a filter accepts, in the table's order. */
  function Matching(f: AuditFilter, rows: seq<AuditRow>): seq<AuditRow> {
    if rows == [] then [] else (if Accepts(f, rows[0]) then [rows[0]] else []) + Matching(f, rows[1..])
  }

  /** LIMIT and OFFSET. */
  function Slice<T>(s: seq<T>, limit: nat, offset: nat): seq<T> {
    if offset >= |s| then [] else if offset + limit >= |s| then s[offset..] else s[offset..offset + limit]
  }

  /** One row against the clause. */
  method Selects(clause: string, values: seq<string>, ghost f: AuditFilter, r: AuditRow) returns (hit: bool)
    requires clause == WhereText(f) && values == Values(Slots(f))
    ensures hit == Accepts(f, r)
  {
    WhereMeansFilter(f, r);
    hit := EvalWhere(clause, values, r) == Some(true);
  }

  /** Every row the clause selects, in the order of the table `rows`, which is the ORDER BY order. */
  method AllWithFilter(f: AuditFilter, rows: seq<AuditRow>) returns (selected: seq<AuditRow>)
    ensures selected == Matching(f, rows)
  {
    var clause, values := BuildWhereClause(f);
    selected := [];
    for i := 0 to |rows|
      invariant selected + Matching(f, rows[i..]) == Matching(f, rows)
    {
      assert rows[i..][1..] == rows[i + 1..];
      var hit := Selects(clause, values, f, rows[i]);
      if hit {
        selected := selected + [rows[i]];
      }
    }
  }

  /** The count is the length of the unpaged result. */
  method CountWithFilter(f: AuditFilter, rows: seq<AuditRow>) returns (count: nat)
    ensures count == |Matching(f, rows)|
  {
    var clause, values := BuildWhereClause(f);
    count := 0;
    for i := 0 to |rows|
      invariant count + |Matching(f, rows[i..])| == |Matching(f, rows)|
    {
      assert rows[i..][1..] == rows[i + 1..];
      var hit := Selects(clause, values, f, rows[i]);
      if hit {
        count := count + 1;
      }
    }
  }

  method PageWithFilter(f: AuditFilter, rows: seq<AuditRow>, limit: nat, offset: nat) returns (logs: seq<AuditRow>)
    ensures logs == Slice(Matching(f, rows), limit, offset)
  {
    var all := AllWithFilter(f, rows);
    logs := Slice(all, limit, offset);
  }

  // ----- The audit page -----

  /** What the browser asks for; a parameter that is missing counts as empty. */
  datatype AuditRequest = AuditRequest(page: int, action: string, result: string, admin: string, from: string, to: string)

  const ACTION_OPTIONS: set<string> := {
    "create_policy_binding", "deactivate_auth_account_on_offboard", "deactivate_mas_user", "delete_keycloak_user",
    "delete_policy_binding", "disable_identity_account_on_disable", "disable_identity_account_on_offboard",
    "enable_identity_account_on_reactivate", "finish_mas_session", "force_identity_logout_on_offboard",
    "force_keycloak_logout", "invite_user", "join_room_on_reconcile", "kick_room_on_offboard",
    "kick_room_on_reconcile", "reactivate_auth_account_on_reactivate", "reactivate_mas_user",
    "revoke_auth_session_on_disable", "revoke_auth_session_on_offboard", "update_policy_binding"}

  const RESULT_OPTIONS: set<string> := {"success", "failure"}

  predicate Acceptable(q: AuditRequest) {
    && (q.action == "" || q.action in ACTION_OPTIONS)
    && (q.result == "" || q.result in RESULT_OPTIONS)
    && (q.from == "" || ValidateDateFormat(q.from))
    && (q.to == "" || ValidateDateFormat(q.to))
  }

  function NonEmpty(s: string): Option<string> {
    if s == "" then None else Some(s)
  }

  function FilterOf(q: AuditRequest): AuditFilter {
    AuditFilter(NonEmpty(q.action), NonEmpty(q.result), NonEmpty(q.admin), NonEmpty(q.from), NonEmpty(q.to))
  }

  /**
   From the request to the row, through the text of the clause and the text of the timestamp: an
   entry is shown exactly when each field that was filled in agrees, and its UTC date is neither
   before the one date nor after the other.
   */
  lemma RequestSelectsDates(q: AuditRequest, r: AuditRow, secs: nat)
    requires Acceptable(q) && r.timestamp == Stamp(secs) && secs < YEAR_10000
    ensures var day := DaysToYmd(DayOf(secs));
            EvalWhere(WhereText(FilterOf(q)), Values(Slots(FilterOf(q))), r) == Some(
              && (q.action == "" || r.action == q.action)
              && (q.result == "" || r.result == q.result)
              && (q.admin == "" || r.adminUsername == q.admin)
              && (q.from == "" || !DateLess(day, DateOf(q.from)))
              && (q.to == "" || !DateLess(DateOf(q.to), day)))
  {
    WhereMeansFilter(FilterOf(q), r);
    DateFieldsSelect(q.from, q.to, secs);
  }

  lemma DateFieldsSelect(from: string, to: string, secs: nat)
    requires (from == "" || ValidateDateFormat(from)) && (to == "" || ValidateDateFormat(to)) && secs < YEAR_10000
    ensures from != "" ==> (FromTest(Stamp(secs), from) <==> !DateLess(DaysToYmd(DayOf(secs)), DateOf(from)))
    ensures to != "" ==> (ToTest(Stamp(secs), to) <==> !DateLess(DateOf(to), DaysToYmd(DayOf(secs))))
  {
    if from != "" {
      ReadDate(from);
      FilterSelectsDates(secs, DateOf(from), DateOf(from));
    }
    if to != "" {
      ReadDate(to);
      FilterSelectsDates(secs, DateOf(to), DateOf(to));
    }
  }

  function TotalPages(total: nat): nat {
    var pages := (total + PAGE_SIZE - 1) / PAGE_SIZE;
    if pages < 1 then 1 else pages
  }

  /** The existing page that is nearest to the requested one. */
  function ClampPage(page: int, totalPages: nat): int {
    var p := if page < 1 then 1 else page;
    if p > totalPages then totalPages else p
  }

  function PageOf(all: seq<AuditRow>, page: nat): seq<AuditRow>
    requires page >= 1
  {
    Slice(all, PAGE_SIZE, (page - 1) * PAGE_SIZE)
  }

  datatype AuditPage = AuditPage(page: nat, totalPages: nat, logs: seq<AuditRow>)

  /** A rejected request has no page; any other is answered with an existing page of the selected rows. */
  method List(q: AuditRequest, rows: seq<AuditRow>) returns (r: Option<AuditPage>)
    ensures r.Some? <==>
      && (q.action != "" ==> q.action in ACTION_OPTIONS) && (q.result != "" ==> q.result in {"success", "failure"})
      && (q.from != "" ==> ValidateDateFormat(q.from)) && (q.to != "" ==> ValidateDateFormat(q.to))
    ensures r.Some? ==>
      var all, p := Matching(FilterOf(q), rows), r.value;
      && 1 <= p.page <= p.totalPages == TotalPages(|all|)
      && (1 <= q.page <= p.totalPages ==> p.page == q.page)
      && (q.page < 1 ==> p.page == 1)
      && (q.page > p.totalPages ==> p.page == p.totalPages)
      && p.logs == PageOf(all, p.page) && |p.logs| <= PAGE_SIZE
      && (p.logs == [] <==> all == [])
  {
    if !Acceptable(q) {
      return None;
    }
    var f := FilterOf(q);
    var total := CountWithFilter(f, rows);
    var totalPages := TotalPages(total);
    var page := ClampPage(q.page, totalPages);
    var logs := PageWithFilter(f, rows, PAGE_SIZE, (page - 1) * PAGE_SIZE);
    return Some(AuditPage(page, totalPages, logs));
  }

  /** Pages 1 to n, one after the other. */
  function PagesUpTo(all: seq<AuditRow>, n: nat): seq<AuditRow> {
    if n == 0 then [] else PagesUpTo(all, n - 1) + PageOf(all, n)
  }

  lemma {:induction false} PagesArePrefix(all: seq<AuditRow>, n: nat)
    ensures PagesUpTo(all, n) == if n * PAGE_SIZE >= |all| then all else all[..n * PAGE_SIZE]
  {
    if n == 0 {
    } else {
      PagesArePrefix(all, n - 1);
    }
  }

  /** The pages 1 to total_pages, one after the other, are the unpaged result; no row is lost or repeated. */
  lemma PagesCoverResult(all: seq<AuditRow>)
    ensures PagesUpTo(all, TotalPages(|all|)) == all
  {
    PagesArePrefix(all, TotalPages(|all|));
  }

  /** Selecting goes row by row: accepted rows stay, each as often as it is there, and the order is kept. */
  lemma {:induction false} MatchingRowByRow(f: AuditFilter, rows: seq<AuditRow>, more: seq<AuditRow>, r: AuditRow)
    ensures Matching(f, rows + more) == Matching(f, rows) + Matching(f, more)
    ensures Matching(f, [r]) == if Accepts(f, r) then [r] else []
  {
    assert [r][1..] == [];
    if rows == [] {
      assert rows + more == more;
    } else {
      assert (rows + more)[1..] == rows[1..] + more;
      MatchingRowByRow(f, rows[1..], more, r);
    }
  }

  /** The selected rows are those the filter accepts, in table order: newest first stays newest first. */
  lemma {:induction false} MatchingKeepsOrder(f: AuditFilter, rows: seq<AuditRow>)
    requires forall i, j | 0 <= i < j < |rows| :: !Less(rows[i].timestamp, rows[j].timestamp)
    ensures var m := Matching(f, rows);
            && (forall r :: r in m <==> r in rows && Accepts(f, r))
            && (forall i, j | 0 <= i < j < |m| :: !Less(m[i].timestamp, m[j].timestamp))
  {
    if rows == [] {
    } else {
      var rest := Matching(f, rows[1..]);
      MatchingKeepsOrder(f, rows[1..]);
      assert rows == [rows[0]] + rows[1..];
      forall r | r in rest ensures !Less(rows[0].timestamp, r.timestamp) {
        var j :| 0 <= j < |rows[1..]| && rows[1..][j] == r;
        assert rows[j + 1] == r;
      }
    }
  }
}
