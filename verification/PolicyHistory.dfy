/** Admin edits and restarts over time, and the ordered listing that reconciliation works from. */
module PolicyHistory {
  import opened Wrappers
  import opened Text
  import opened Policy
  import opened PolicyTable

  // ----- Histories -----

  datatype Db = Db(rows: seq<BindingRow>, bootstrapped: Option<(string, string)>)

  datatype Op =
    | Create(row: BindingRow)
    | Change(id: string, powerLevel: Option<int>, allowRemove: bool, now: string)
    | Discard(id: string)
    | Bootstrap(mappings: seq<GroupMapping>, attempts: seq<InsertAttempt>, source: string, at: string,
                readable: bool, marked: bool)

  predicate WellFormed(op: Op) {
    op.Bootstrap? ==> |op.attempts| == |op.mappings|
  }

  function Apply(db: Db, op: Op): Db
    requires WellFormed(op)
  {
    match op
    case Create(r) => db.(rows := if Insert(db.rows, r).Some? then Insert(db.rows, r).value else db.rows)
    case Change(id, level, remove, now) => db.(rows := Update(db.rows, id, level, remove, now))
    case Discard(id) => db.(rows := Delete(db.rows, id))
    case Bootstrap(ms, attempts, source, at, readable, marked) =>
      if !readable || db.bootstrapped.Some? then db
      else Db(ImportAll(db.rows, ms, attempts, at).rows, if marked then Some((source, at)) else None)
  }

  /** Each operation is what the methods of the database do. */
  method Perform(db: PolicyDb, op: Op)
    requires db.Valid() && WellFormed(op)
    modifies db
    ensures db.Valid()
    ensures Db(db.rows, db.bootstrapped) == Apply(Db(old(db.rows), old(db.bootstrapped)), op)
  {
    match op
    case Create(r) => var ok := db.CreateBinding(r);
    case Change(id, level, remove, now) => var found := db.UpdateBinding(id, level, remove, now);
    case Discard(id) => var found := db.DeleteBinding(id);
    case Bootstrap(ms, attempts, source, at, readable, marked) =>
      var count := db.BootstrapFromEnv(ms, attempts, source, at, readable, marked);
  }

  function Replay(db: Db, ops: seq<Op>): Db
    requires forall op | op in ops :: WellFormed(op)
    decreases |ops|
  {
    if ops == [] then db else Replay(Apply(db, ops[0]), ops[1..])
  }

  lemma {:induction false} ImportKeepsTable(rows: seq<BindingRow>, ms: seq<GroupMapping>, attempts: seq<InsertAttempt>, now: string)
    requires |attempts| == |ms| && ValidTable(rows)
    ensures ValidTable(ImportAll(rows, ms, attempts, now).rows)
    decreases |ms|
  {
    if ms == [] {
    } else {
      var added := TryInsert(rows, ms[0], attempts[0], now);
      if added.Some? { InsertKeepsTable(rows, MappingRow(ms[0], attempts[0].id, now)); }
      ImportKeepsTable(if added.Some? then added.value else rows, ms[1..], attempts[1..], now);
    }
  }

  /** Ids and keys stay unique over any history of edits and restarts. */
  lemma {:induction false} KeysStayUnique(db: Db, ops: seq<Op>)
    requires forall op | op in ops :: WellFormed(op)
    requires ValidTable(db.rows)
    ensures ValidTable(Replay(db, ops).rows)
    decreases |ops|
  {
    if ops == [] {
    } else {
      assert WellFormed(ops[0]);
      match ops[0] {
        case Create(r) => if Insert(db.rows, r).Some? { InsertKeepsTable(db.rows, r); }
        case Change(id, level, remove, now) => UpdateKeepsTable(db.rows, id, level, remove, now);
        case Discard(id) => DeleteKeepsTable(db.rows, id);
        case Bootstrap(ms, attempts, _, at, _, _) => ImportKeepsTable(db.rows, ms, attempts, at);
      }
      KeysStayUnique(Apply(db, ops[0]), ops[1..]);
    }
  }

  function EditsOnly(ops: seq<Op>): seq<Op> {
    if ops == [] then [] else (if ops[0].Bootstrap? then [] else [ops[0]]) + EditsOnly(ops[1..])
  }

  lemma {:induction false} EditsAreWellFormed(ops: seq<Op>)
    ensures forall op | op in EditsOnly(ops) :: WellFormed(op)
  {
    if ops == [] {
    } else {
      EditsAreWellFormed(ops[1..]);
    }
  }

  /**
   Once a bootstrap has completed, later ones never change anything: the database develops as if
   they were not there, so nothing an admin deletes comes back through them.
   */
  lemma {:induction false} BootstrapHappensOnce(db: Db, ops: seq<Op>)
    requires forall op | op in ops :: WellFormed(op)
    requires db.bootstrapped.Some?
    ensures forall op | op in EditsOnly(ops) :: WellFormed(op)
    ensures Replay(db, ops) == Replay(db, EditsOnly(ops))
    ensures Replay(db, ops).bootstrapped == db.bootstrapped
    decreases |ops|
  {
    EditsAreWellFormed(ops);
    if ops == [] {
    } else {
      EditsAreWellFormed(ops[1..]);
      BootstrapHappensOnce(Apply(db, ops[0]), ops[1..]);
      assert WellFormed(ops[0]);
      if ops[0].Bootstrap? {
        assert EditsOnly(ops) == EditsOnly(ops[1..]);
      } else {
        assert EditsOnly(ops)[0] == ops[0] && EditsOnly(ops)[1..] == EditsOnly(ops[1..]);
      }
    }
  }

  /** A bootstrap leaves the rows alone exactly when its mark cannot be read, or is there, or no mapping it reaches is new. */
  lemma BootstrapChangesNothingIff(db: Db, op: Op)
    requires op.Bootstrap? && WellFormed(op) && FreshIds(db.rows, op.attempts)
    ensures Apply(db, op).rows == db.rows
       <==> !op.readable || db.bootstrapped.Some? || NewKeys(db.rows, Reached(op.mappings, op.attempts)) == {}
  {
    ImportAddsNewKeysOnce(db.rows, op.mappings, op.attempts, op.at);
  }

  /**
   So a binding that an admin deleted comes back with the next bootstrap exactly when the mark can be
   read and is missing, and a mapping that is reached still asks for it.
   */
  lemma DeletedComesBackIff(db: Db, op: Op, k: Key)
    requires op.Bootstrap? && WellFormed(op) && FreshIds(db.rows, op.attempts)
    requires !Holds(db.rows, k)
    ensures Holds(Apply(db, op).rows, k)
       <==> op.readable && db.bootstrapped.None? && exists g :: g in Reached(op.mappings, op.attempts) && MappingKey(g) == k
  {
    ImportAddsNewKeysOnce(db.rows, op.mappings, op.attempts, op.at);
    var reached := Reached(op.mappings, op.attempts);
    if g :| g in reached && MappingKey(g) == k {
      assert k in NewKeys(db.rows, reached);
    }
  }

  /** If the mark could not be written, the next start imports again, and a deleted binding does come back. */
  lemma UnmarkedBootstrapRepeats(g: GroupMapping, id: string, id': string, at: string)
    requires id != id'
    ensures var start := Bootstrap([g], [InsertAttempt(id, true)], "env", at, true, false);
            var again := Bootstrap([g], [InsertAttempt(id', true)], "env", at, true, true);
            Replay(Db([], None), [start, Discard(id), again]).rows == [MappingRow(g, id', at)]
  {
    var start := Bootstrap([g], [InsertAttempt(id, true)], "env", at, true, false);
    var again := Bootstrap([g], [InsertAttempt(id', true)], "env", at, true, true);
    var r := MappingRow(g, id, at);
    ImportOne(g, id, at);
    ImportOne(g, id', at);
    assert Apply(Db([], None), start) == Db([r], None);
    assert Delete([r], id) == [] + Delete([r][1..], id) == [];
    assert Apply(Db([r], None), Discard(id)) == Db([], None);
    var empty := Db([], None);
    var ops := [start, Discard(id), again];
    assert ops[1..] == [Discard(id), again] && [Discard(id), again][1..] == [again] && [again][1..] == [];
    assert Replay(empty, [again]) == Replay(Apply(empty, again), []) == Apply(empty, again);
    assert Replay(Db([r], None), [Discard(id), again]) == Replay(empty, [again]);
    assert Replay(empty, ops) == Replay(Db([r], None), [Discard(id), again]);
  }

  lemma ImportOne(g: GroupMapping, id: string, at: string)
    ensures ImportAll([], [g], [InsertAttempt(id, true)], at).rows == [MappingRow(g, id, at)]
  {
    assert [] + [MappingRow(g, id, at)] == [MappingRow(g, id, at)];
    assert [g][1..] == [] && [InsertAttempt(id, true)][1..] == [];
  }

  // ----- The order of the listing -----

  /** ORDER BY subject_type, subject_value, target_room_id */
  predicate KeyLess(a: Key, b: Key) {
    || Less(a.subjectType, b.subjectType)
    || (a.subjectType == b.subjectType
        && (Less(a.subjectValue, b.subjectValue)
            || (a.subjectValue == b.subjectValue && Less(a.roomId, b.roomId))))
  }

  lemma KeyOrder(a: Key, b: Key, c: Key)
    ensures !KeyLess(a, a)
    ensures KeyLess(a, b) && KeyLess(b, c) ==> KeyLess(a, c)
    ensures KeyLess(a, b) || a == b || KeyLess(b, a)
  {
    LessIsIrreflexive(a.subjectType);
    LessIsIrreflexive(a.subjectValue);
    LessIsIrreflexive(a.roomId);
    LessIsTotal(a.subjectType, b.subjectType);
    LessIsTotal(a.subjectValue, b.subjectValue);
    LessIsTotal(a.roomId, b.roomId);
    if Less(a.subjectType, b.subjectType) && Less(b.subjectType, c.subjectType) {
      LessIsTransitive(a.subjectType, b.subjectType, c.subjectType);
    }
    if Less(a.subjectValue, b.subjectValue) && Less(b.subjectValue, c.subjectValue) {
      LessIsTransitive(a.subjectValue, b.subjectValue, c.subjectValue);
    }
    if Less(a.roomId, b.roomId) && Less(b.roomId, c.roomId) {
      LessIsTransitive(a.roomId, b.roomId, c.roomId);
    }
  }

  function Place(rows: seq<BindingRow>, r: BindingRow): seq<BindingRow> {
    if rows == [] || KeyLess(KeyOf(r), KeyOf(rows[0])) then [r] + rows else [rows[0]] + Place(rows[1..], r)
  }

  function SortRows(rows: seq<BindingRow>): seq<BindingRow> {
    if rows == [] then [] else Place(SortRows(rows[1..]), rows[0])
  }

  ghost predicate StrictlySorted(rows: seq<BindingRow>) {
    forall i, j | 0 <= i < j < |rows| :: KeyLess(KeyOf(rows[i]), KeyOf(rows[j]))
  }

  lemma {:induction false} PlaceKeepsRows(rows: seq<BindingRow>, r: BindingRow, x: BindingRow)
    ensures x in Place(rows, r) <==> x in rows || x == r
  {
    if rows == [] || KeyLess(KeyOf(r), KeyOf(rows[0])) {
    } else {
      PlaceKeepsRows(rows[1..], r, x);
    }
  }

  lemma {:induction false} PlaceSorts(rows: seq<BindingRow>, r: BindingRow)
    requires StrictlySorted(rows) && forall x | x in rows :: KeyOf(x) != KeyOf(r)
    ensures StrictlySorted(Place(rows, r))
  {
    if rows == [] {
    } else if KeyLess(KeyOf(r), KeyOf(rows[0])) {
      forall x | x in rows ensures KeyLess(KeyOf(r), KeyOf(x)) {
        KeyOrder(KeyOf(r), KeyOf(rows[0]), KeyOf(x));
      }
    } else {
      var rest := Place(rows[1..], r);
      PlaceSorts(rows[1..], r);
      KeyOrder(KeyOf(r), KeyOf(rows[0]), KeyOf(r));
      forall x | x in rest ensures KeyLess(KeyOf(rows[0]), KeyOf(x)) {
        PlaceKeepsRows(rows[1..], r, x);
      }
    }
  }

  lemma {:induction false} SortKeepsRows(rows: seq<BindingRow>, x: BindingRow)
    ensures x in SortRows(rows) <==> x in rows
  {
    if rows == [] {
    } else {
      SortKeepsRows(rows[1..], x);
      PlaceKeepsRows(SortRows(rows[1..]), rows[0], x);
    }
  }

  /** The listing has the table's rows in strictly increasing key order. */
  lemma {:induction false} ListingIsSorted(rows: seq<BindingRow>)
    requires ValidTable(rows)
    ensures StrictlySorted(SortRows(rows))
  {
    if rows == [] {
    } else {
      ListingIsSorted(rows[1..]);
      forall x | x in SortRows(rows[1..]) ensures KeyOf(x) != KeyOf(rows[0]) {
        SortKeepsRows(rows[1..], x);
      }
      PlaceSorts(SortRows(rows[1..]), rows[0]);
    }
  }

  // ----- The domain objects -----

  function ToBinding(r: BindingRow): PolicyBinding {
    PolicyBinding(
      r.id,
      if r.subjectType == "role" then PolicySubject.Role(r.subjectValue) else PolicySubject.Group(r.subjectValue),
      if r.targetType == "space" then PolicyTarget.Space(r.roomId) else PolicyTarget.Room(r.roomId),
      r.powerLevel,
      r.allowRemove,
      r.createdAt,
      r.updatedAt)
  }

  function ListBindings(rows: seq<BindingRow>): seq<PolicyBinding> {
    var sorted := SortRows(rows);
    seq(|sorted|, i requires 0 <= i < |sorted| => ToBinding(sorted[i]))
  }

  /** The binding says what the row says. */
  predicate SaysRow(b: PolicyBinding, r: BindingRow) {
    && b.id == r.id
    && (b.subject.Role? <==> r.subjectType == "role") && b.subject.value == r.subjectValue
    && (b.target.Space? <==> r.targetType == "space") && b.target.roomId == r.roomId
    && b.powerLevel == r.powerLevel && b.allowRemove == r.allowRemove
    && b.createdAt == r.createdAt && b.updatedAt == r.updatedAt
  }

  lemma {:induction false} PlaceAddsOne(rows: seq<BindingRow>, r: BindingRow)
    ensures |Place(rows, r)| == |rows| + 1
  {
    if rows == [] || KeyLess(KeyOf(r), KeyOf(rows[0])) {
    } else {
      PlaceAddsOne(rows[1..], r);
    }
  }

  lemma {:induction false} SortKeepsLength(rows: seq<BindingRow>)
    ensures |SortRows(rows)| == |rows|
  {
    if rows == [] {
    } else {
      SortKeepsLength(rows[1..]);
      PlaceAddsOne(SortRows(rows[1..]), rows[0]);
    }
  }

  /** Where a row of the table is listed, and that it is listed there only. */
  lemma RowIsListed(rows: seq<BindingRow>, r: BindingRow) returns (i: nat)
    requires ValidTable(rows) && r in rows
    ensures |ListBindings(rows)| == |rows| && i < |rows|
    ensures SaysRow(ListBindings(rows)[i], r)
    ensures forall j | 0 <= j < |rows| && ListBindings(rows)[j].id == r.id :: j == i
  {
    var sorted := SortRows(rows);
    SortKeepsLength(rows);
    SortKeepsRows(rows, r);
    i :| 0 <= i < |sorted| && sorted[i] == r;
    forall j | 0 <= j < |rows| && ListBindings(rows)[j].id == r.id ensures j == i {
      SortKeepsRows(rows, sorted[j]);
      assert sorted[j] in rows && sorted[j].id == r.id;
      SameIdSameRow(rows, sorted[j], r);
      ListingIsSorted(rows);
      KeyOrder(KeyOf(r), KeyOf(r), KeyOf(r));
    }
  }

  lemma SameIdSameRow(rows: seq<BindingRow>, r: BindingRow, x: BindingRow)
    requires ValidTable(rows) && r in rows && x in rows && r.id == x.id
    ensures r == x
  {
  }

  /** Nothing else is listed. */
  lemma ListedIsRow(rows: seq<BindingRow>, i: nat) returns (r: BindingRow)
    requires i < |ListBindings(rows)|
    ensures r in rows && SaysRow(ListBindings(rows)[i], r)
  {
    r := SortRows(rows)[i];
    SortKeepsRows(rows, r);
  }

  /** Groups come before roles, then the value of the subject decides, then the room. */
  predicate ListedBefore(a: PolicyBinding, b: PolicyBinding) {
    || (a.subject.Group? && b.subject.Role?)
    || ((a.subject.Group? <==> b.subject.Group?)
        && (Less(a.subject.value, b.subject.value)
            || (a.subject.value == b.subject.value && Less(a.target.roomId, b.target.roomId))))
  }

  /** The bindings are listed by kind of subject, then subject, then room. */
  lemma ListingOrder(rows: seq<BindingRow>, i: nat, j: nat)
    requires ValidTable(rows) && i < j < |ListBindings(rows)|
    ensures ListedBefore(ListBindings(rows)[i], ListBindings(rows)[j])
  {
    var s := SortRows(rows);
    ListingIsSorted(rows);
    SortKeepsRows(rows, s[i]);
    SortKeepsRows(rows, s[j]);
    assert s[i] in s && s[j] in s;
    assert KeyLess(KeyOf(s[i]), KeyOf(s[j]));
    assert TypesOk(s[i]) && TypesOk(s[j]);
    assert Less("group", "role") && !Less("role", "group");
    LessIsIrreflexive("group");
    LessIsIrreflexive("role");
  }

  /** A row without its id and times. */
  function Anonymous(r: BindingRow): BindingRow {
    r.(id := "", createdAt := "", updatedAt := "")
  }

  function AnonymousBinding(b: PolicyBinding): PolicyBinding {
    b.(id := "", createdAt := "", updatedAt := "")
  }

  function AnonymousRows(rows: seq<BindingRow>): seq<BindingRow> {
    seq(|rows|, i requires 0 <= i < |rows| => Anonymous(rows[i]))
  }

  /** The tables hold the same rows, ids and times aside. */
  ghost predicate SameRows(rows: seq<BindingRow>, rows': seq<BindingRow>) {
    SameElements(AnonymousRows(rows), AnonymousRows(rows'))
  }

  ghost predicate SameElements(s: seq<BindingRow>, s': seq<BindingRow>) {
    forall x :: x in s <==> x in s'
  }

  lemma AnonymousElements(rows: seq<BindingRow>, x: BindingRow)
    ensures x in AnonymousRows(rows) <==> exists r :: r in rows && Anonymous(r) == x
  {
    if x in AnonymousRows(rows) {
      var i :| 0 <= i < |rows| && AnonymousRows(rows)[i] == x;
      assert rows[i] in rows && Anonymous(rows[i]) == x;
    }
    if r :| r in rows && Anonymous(r) == x {
      var i :| 0 <= i < |rows| && rows[i] == r;
      assert AnonymousRows(rows)[i] == x;
    }
  }

  /** A strictly sorted sequence is determined by its elements. */
  lemma {:induction false} SortedRowsAreUnique(s: seq<BindingRow>, s': seq<BindingRow>)
    requires StrictlySorted(s) && StrictlySorted(s') && SameElements(s, s')
    ensures s == s'
  {
    if s == [] {
      HeadIsElement(s');
    } else {
      assert s[0] in s;
      assert s'[0] in s';
      KeyOrder(KeyOf(s[0]), KeyOf(s'[0]), KeyOf(s[0]));
      KeyOrder(KeyOf(s'[0]), KeyOf(s[0]), KeyOf(s'[0]));
      assert s[0] == s'[0];
      assert s == [s[0]] + s[1..] && s' == [s'[0]] + s'[1..];
      HeadIsNotInTail(s);
      HeadIsNotInTail(s');
      forall x ensures x in s[1..] <==> x in s'[1..] {
        assert x in s <==> x in s';
      }
      SortedRowsAreUnique(s[1..], s'[1..]);
    }
  }

  lemma HeadIsElement(s: seq<BindingRow>)
    ensures s != [] ==> s[0] in s
  {
  }

  lemma HeadIsNotInTail(s: seq<BindingRow>)
    requires StrictlySorted(s) && s != []
    ensures s[0] !in s[1..]
  {
    KeyOrder(KeyOf(s[0]), KeyOf(s[0]), KeyOf(s[0]));
  }

  lemma AnonymousListing(rows: seq<BindingRow>)
    requires ValidTable(rows)
    ensures var s := AnonymousRows(SortRows(rows)); StrictlySorted(s) && SameElements(s, AnonymousRows(rows))
  {
    var sorted := SortRows(rows);
    ListingIsSorted(rows);
    forall i | 0 <= i < |sorted| ensures KeyOf(AnonymousRows(sorted)[i]) == KeyOf(sorted[i]) {}
    forall x ensures x in AnonymousRows(sorted) <==> x in AnonymousRows(rows) {
      AnonymousElements(sorted, x);
      AnonymousElements(rows, x);
      forall r ensures r in sorted <==> r in rows { SortKeepsRows(rows, r); }
    }
  }

  /**
   Two tables with the same rows, ids and times aside, list the same bindings in the same order,
   whatever histories led to them.
   */
  lemma SameRowsSameListing(rows: seq<BindingRow>, rows': seq<BindingRow>)
    requires ValidTable(rows) && ValidTable(rows') && SameRows(rows, rows')
    ensures var bs, bs' := ListBindings(rows), ListBindings(rows');
            |bs| == |bs'| && forall i | 0 <= i < |bs| :: AnonymousBinding(bs[i]) == AnonymousBinding(bs'[i])
  {
    var s, s' := SortRows(rows), SortRows(rows');
    AnonymousListing(rows);
    AnonymousListing(rows');
    SortedRowsAreUnique(AnonymousRows(s), AnonymousRows(s'));
    assert |s| == |AnonymousRows(s)| == |AnonymousRows(s')| == |s'|;
    forall i | 0 <= i < |s| ensures AnonymousBinding(ToBinding(s[i])) == AnonymousBinding(ToBinding(s'[i])) {
      assert AnonymousRows(s)[i] == AnonymousRows(s')[i];
      BindingOfAnonymous(s[i]);
      BindingOfAnonymous(s'[i]);
    }
  }

  lemma BindingOfAnonymous(r: BindingRow)
    ensures AnonymousBinding(ToBinding(r)) == ToBinding(Anonymous(r))
  {
  }

  /** Group bindings are listed before role bindings. */
  lemma GroupsBeforeRoles(rows: seq<BindingRow>, i: nat, j: nat)
    requires ValidTable(rows) && i < j < |ListBindings(rows)|
    requires ListBindings(rows)[i].subject.Role?
    ensures ListBindings(rows)[j].subject.Role?
  {
    var s := SortRows(rows);
    ListingIsSorted(rows);
    SortKeepsRows(rows, s[i]);
    SortKeepsRows(rows, s[j]);
    assert s[i] in s && s[j] in s;
    assert KeyLess(KeyOf(s[i]), KeyOf(s[j]));
    assert TypesOk(s[i]) && TypesOk(s[j]);
    assert !Less("role", "group");
  }
}
