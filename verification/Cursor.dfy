/** Keyset cursors: building them from a row, carrying them as JSON fields, and turning them into a condition. */
module Cursor {
  import opened Common
  import opened SqlTokens
  import opened SqlParser
  import opened Database
  import opened SortedRows
  import opened SqlMeaning
  import opened Fragments
  import opened Sorting

  datatype ResourcesCursor = ResourcesCursor(
    sortBy: SortBy, sortOrder: SortOrder, id: int,
    updatedAt: Option<int>, createdAt: Option<int>, globalUid: string,
    compositionId: Option<string>, compositionIdNull: bool,
    group: string, version: string, resource: string, namespace: string, name: string)

  /** The fields of a scanned row that a cursor may need. */
  datatype RowCursor = RowCursor(
    id: int, updatedAt: int, createdAt: int, globalUid: string, compositionId: Option<string>,
    group: string, version: string, resource: string, namespace: string, name: string)

  function RowCursorOf(r: Row): RowCursor {
    RowCursor(r.id, r.updatedAt, r.createdAt, r.globalUid, r.compositionId,
              r.group, r.version, r.plural, r.namespace, r.name)
  }

  function BlankCursor(sortBy: SortBy, sortOrder: SortOrder, id: int): ResourcesCursor {
    ResourcesCursor(sortBy, sortOrder, id, None, None, "", None, false, "", "", "", "", "")
  }

  /** Only the fields that the sort compares are filled in. */
  function BuildCursor(sortBy: SortBy, sortOrder: SortOrder, rc: RowCursor): ResourcesCursor {
    var c := BlankCursor(sortBy, sortOrder, rc.id);
    match sortBy
    case ByCreatedAt => c.(createdAt := Some(rc.createdAt))
    case ByUpdatedAt => c.(updatedAt := Some(rc.updatedAt))
    case ByGlobalUid => c.(globalUid := rc.globalUid)
    case ByCompositionId =>
      if rc.compositionId.None? then c.(compositionIdNull := true) else c.(compositionId := rc.compositionId)
    case ByResource =>
      c.(group := rc.group, version := rc.version, resource := rc.resource,
         namespace := rc.namespace, name := rc.name)
    case Unset => c
    case OtherColumn(_) => c
  }

  /** The cursor names the row by what its sort compares, and by nothing else. */
  predicate Names(c: ResourcesCursor, sortBy: SortBy, sortOrder: SortOrder, rc: RowCursor) {
    && c.sortBy == sortBy && c.sortOrder == sortOrder && c.id == rc.id
    && c.createdAt == (if sortBy.ByCreatedAt? then Some(rc.createdAt) else None)
    && c.updatedAt == (if sortBy.ByUpdatedAt? then Some(rc.updatedAt) else None)
    && c.globalUid == (if sortBy.ByGlobalUid? then rc.globalUid else "")
    && c.compositionId == (if sortBy.ByCompositionId? then rc.compositionId else None)
    && (c.compositionIdNull <==> sortBy.ByCompositionId? && rc.compositionId.None?)
    && [c.group, c.version, c.resource, c.namespace, c.name]
      == if sortBy.ByResource? then [rc.group, rc.version, rc.resource, rc.namespace, rc.name] else ["", "", "", "", ""]
  }

  /** Filling the cursor's fields one by one. */
  method FillCursor(sortBy: SortBy, sortOrder: SortOrder, rc: RowCursor) returns (c: ResourcesCursor)
    ensures Names(c, sortBy, sortOrder, rc)
    ensures Complete(sortBy, c)
  {
    c := ResourcesCursor(sortBy, sortOrder, rc.id, None, None, "", None, false, "", "", "", "", "");
    match sortBy {
      case ByCreatedAt => c := c.(createdAt := Some(rc.createdAt));
      case ByUpdatedAt => c := c.(updatedAt := Some(rc.updatedAt));
      case ByGlobalUid => c := c.(globalUid := rc.globalUid);
      case ByCompositionId =>
        if rc.compositionId.None? {
          c := c.(compositionIdNull := true);
        } else {
          c := c.(compositionId := rc.compositionId);
        }
      case ByResource =>
        c := c.(group := rc.group);
        c := c.(version := rc.version);
        c := c.(resource := rc.resource);
        c := c.(namespace := rc.namespace);
        c := c.(name := rc.name);
      case Unset =>
      case OtherColumn(_) =>
    }
  }

  /** Only the cursor that the theorems are about names the row. */
  lemma OneCursorNames(c: ResourcesCursor, sortBy: SortBy, sortOrder: SortOrder, rc: RowCursor)
    ensures Names(c, sortBy, sortOrder, rc) <==> c == BuildCursor(sortBy, sortOrder, rc)
  {
    var b := BuildCursor(sortBy, sortOrder, rc);
    assert Names(b, sortBy, sortOrder, rc);
    if Names(c, sortBy, sortOrder, rc) {
      var xs := [c.group, c.version, c.resource, c.namespace, c.name];
      var ys := [b.group, b.version, b.resource, b.namespace, b.name];
      SameFive(xs, ys);
    }
  }

  lemma SameFive(xs: seq<string>, ys: seq<string>)
    requires |xs| == |ys| == 5 && xs == ys
    ensures xs[0] == ys[0] && xs[1] == ys[1] && xs[2] == ys[2] && xs[3] == ys[3] && xs[4] == ys[4]
  {
  }

  // ----- tokens -----

  /** JSON values at the level of decoded fields; times and the two sort words are kept as what they denote. */
  datatype Json = JNull | JString(s: string) | JNumber(n: int) | JBool(b: bool) | JTime(t: int)
                | JSortBy(sortBy: SortBy) | JSortOrder(sortOrder: SortOrder)

  datatype JsonKey = S | O | I | U | C | G | P | Pn | Rg | Rv | Rr | Rn | Rm | OtherKey(name: string)

  /** The empty token, a token holding a JSON object, or text that is no such token. */
  datatype EncodedCursor = NoCursor | Token(fields: map<JsonKey, Json>) | Malformed

  datatype CursorError = BadToken | SortByMismatch(cursorBy: SortBy, requestBy: SortBy)
                       | SortOrderMismatch(cursorOrder: SortOrder, requestOrder: SortOrder)

  function Lookup(fields: map<JsonKey, Json>, f: JsonKey): Json {
    if f in fields then fields[f] else JNull
  }

  function OptionalTime(t: Option<int>): Json {
    if t.Some? then JTime(t.value) else JNull
  }

  function OptionalText(t: Option<string>): Json {
    if t.Some? then JString(t.value) else JNull
  }

  /** The value written under a key, JNull when omitted: empty texts, false and nil pointers are,
      whatever a pointer points to. */
  function FieldValue(c: ResourcesCursor, k: JsonKey): Json {
    match k
    case S => JSortBy(c.sortBy)
    case O => if c.sortOrder == NoOrder then JNull else JSortOrder(c.sortOrder)
    case I => JNumber(c.id)
    case U => OptionalTime(c.updatedAt)
    case C => OptionalTime(c.createdAt)
    case G => NonEmpty(c.globalUid)
    case P => OptionalText(c.compositionId)
    case Pn => if c.compositionIdNull then JBool(true) else JNull
    case Rg => NonEmpty(c.group)
    case Rv => NonEmpty(c.version)
    case Rr => NonEmpty(c.resource)
    case Rn => NonEmpty(c.namespace)
    case Rm => NonEmpty(c.name)
    case OtherKey(_) => JNull
  }

  function NonEmpty(s: string): Json {
    if s == "" then JNull else JString(s)
  }

  const FIELD_KEYS: set<JsonKey> := {S, O, I, U, C, G, P, Pn, Rg, Rv, Rr, Rn, Rm}

  function EncodeFields(c: ResourcesCursor): (out: map<JsonKey, Json>)
    ensures forall k :: Lookup(out, k) == FieldValue(c, k)
  {
    map k | k in FIELD_KEYS && FieldValue(c, k) != JNull :: FieldValue(c, k)
  }

  function EncodeCursor(c: Option<ResourcesCursor>): EncodedCursor {
    if c.None? then NoCursor else Token(EncodeFields(c.value))
  }

  lemma Held(c: ResourcesCursor, k: JsonKey)
    requires k in FIELD_KEYS
    ensures k in EncodeFields(c) <==> FieldValue(c, k) != JNull
    ensures k in EncodeFields(c) ==> EncodeFields(c)[k] == FieldValue(c, k)
  {
    hide FieldValue;
  }

  /** Which fields a token holds, and their values: sort and id always, anything else unless it is empty. */
  lemma TokenHolds(c: ResourcesCursor)
    ensures var f := EncodeFields(c);
      (S in f && f[S] == JSortBy(c.sortBy)) && (I in f && f[I] == JNumber(c.id)) &&
      (O in f <==> c.sortOrder != NoOrder) && (O in f ==> f[O] == JSortOrder(c.sortOrder)) &&
      (U in f <==> c.updatedAt.Some?) && (U in f ==> f[U] == JTime(c.updatedAt.value)) &&
      (C in f <==> c.createdAt.Some?) && (C in f ==> f[C] == JTime(c.createdAt.value)) &&
      (P in f <==> c.compositionId.Some?) && (P in f ==> f[P] == JString(c.compositionId.value)) &&
      (Pn in f <==> c.compositionIdNull) && (Pn in f ==> f[Pn] == JBool(true))
  {
    hide EncodeFields;
    Held(c, S);
    Held(c, I);
    Held(c, O);
    Held(c, U);
    Held(c, C);
    Held(c, P);
    Held(c, Pn);
  }

  lemma TokenHoldsTexts(c: ResourcesCursor)
    ensures var f := EncodeFields(c);
      (G in f <==> c.globalUid != "") && (G in f ==> f[G] == JString(c.globalUid)) &&
      (Rg in f <==> c.group != "") && (Rg in f ==> f[Rg] == JString(c.group)) &&
      (Rv in f <==> c.version != "") && (Rv in f ==> f[Rv] == JString(c.version)) &&
      (Rr in f <==> c.resource != "") && (Rr in f ==> f[Rr] == JString(c.resource)) &&
      (Rn in f <==> c.namespace != "") && (Rn in f ==> f[Rn] == JString(c.namespace)) &&
      (Rm in f <==> c.name != "") && (Rm in f ==> f[Rm] == JString(c.name))
  {
    hide EncodeFields;
    Held(c, G);
    Held(c, Rg);
    Held(c, Rv);
    Held(c, Rr);
    Held(c, Rn);
    Held(c, Rm);
  }

  // An absent or null field keeps the zero value; a value of another kind is an error.

  function GetString(fields: map<JsonKey, Json>, f: JsonKey): Option<string> {
    match Lookup(fields, f) case JNull => Some("") case JString(s) => Some(s) case _ => None
  }

  function GetBool(fields: map<JsonKey, Json>, f: JsonKey): Option<bool> {
    match Lookup(fields, f) case JNull => Some(false) case JBool(b) => Some(b) case _ => None
  }

  function GetTime(fields: map<JsonKey, Json>, f: JsonKey): Option<Option<int>> {
    match Lookup(fields, f) case JNull => Some(None) case JTime(t) => Some(Some(t)) case _ => None
  }

  function GetTextPointer(fields: map<JsonKey, Json>, f: JsonKey): Option<Option<string>> {
    match Lookup(fields, f) case JNull => Some(None) case JString(s) => Some(Some(s)) case _ => None
  }

  function GetId(fields: map<JsonKey, Json>): Option<int> {
    match Lookup(fields, I) case JNull => Some(0) case JNumber(n) => Some(n) case _ => None
  }

  function GetSortBy(fields: map<JsonKey, Json>): Option<SortBy> {
    match Lookup(fields, S) case JNull => Some(Unset) case JSortBy(s) => Some(s) case _ => None
  }

  function GetSortOrder(fields: map<JsonKey, Json>): Option<SortOrder> {
    match Lookup(fields, O) case JNull => Some(NoOrder) case JSortOrder(o) => Some(o) case _ => None
  }

  function DecodeFields(fields: map<JsonKey, Json>): Option<ResourcesCursor> {
    var sortBy :- GetSortBy(fields);
    var sortOrder :- GetSortOrder(fields);
    var id :- GetId(fields);
    var updatedAt :- GetTime(fields, U);
    var createdAt :- GetTime(fields, C);
    var globalUid :- GetString(fields, G);
    var compositionId :- GetTextPointer(fields, P);
    var compositionIdNull :- GetBool(fields, Pn);
    var group :- GetString(fields, Rg);
    var version :- GetString(fields, Rv);
    var resource :- GetString(fields, Rr);
    var namespace :- GetString(fields, Rn);
    var name :- GetString(fields, Rm);
    Some(ResourcesCursor(sortBy, sortOrder, id, updatedAt, createdAt, globalUid, compositionId,
                         compositionIdNull, group, version, resource, namespace, name))
  }

  function DecodeCursor(t: EncodedCursor): Result<Option<ResourcesCursor>, CursorError> {
    match t
    case NoCursor => Ok(None)
    case Malformed => Err(BadToken)
    case Token(fields) =>
      var c := DecodeFields(fields);
      if c.None? then Err(BadToken) else Ok(c)
  }

  lemma OwnFieldsBack(fields: map<JsonKey, Json>, c: ResourcesCursor)
    requires forall k :: Lookup(fields, k) == FieldValue(c, k)
    ensures GetSortBy(fields) == Some(c.sortBy) && GetSortOrder(fields) == Some(c.sortOrder)
    ensures GetId(fields) == Some(c.id) && GetTime(fields, U) == Some(c.updatedAt)
    ensures GetTime(fields, C) == Some(c.createdAt) && GetTextPointer(fields, P) == Some(c.compositionId)
    ensures GetBool(fields, Pn) == Some(c.compositionIdNull)
  {
    assert Lookup(fields, S) == JSortBy(c.sortBy) && Lookup(fields, I) == JNumber(c.id);
    assert Lookup(fields, O) == FieldValue(c, O);
    assert Lookup(fields, U) == OptionalTime(c.updatedAt) && Lookup(fields, C) == OptionalTime(c.createdAt);
    assert Lookup(fields, P) == OptionalText(c.compositionId) && Lookup(fields, Pn) == FieldValue(c, Pn);
    hide Lookup;
  }

  lemma TextFieldsBack(fields: map<JsonKey, Json>, c: ResourcesCursor)
    requires forall k :: Lookup(fields, k) == FieldValue(c, k)
    ensures GetString(fields, G) == Some(c.globalUid)
    ensures GetString(fields, Rg) == Some(c.group) && GetString(fields, Rv) == Some(c.version)
    ensures GetString(fields, Rr) == Some(c.resource) && GetString(fields, Rn) == Some(c.namespace)
    ensures GetString(fields, Rm) == Some(c.name)
  {
    hide Lookup;
  }

  lemma FieldsRoundTrip(fields: map<JsonKey, Json>, c: ResourcesCursor)
    requires forall k :: Lookup(fields, k) == FieldValue(c, k)
    ensures DecodeFields(fields) == Some(c)
  {
    hide Lookup, FieldValue, GetSortBy, GetSortOrder, GetId, GetTime, GetString, GetTextPointer, GetBool;
    OwnFieldsBack(fields, c);
    TextFieldsBack(fields, c);
  }

  /** Nothing is lost on the way through a token, for any cursor. */
  lemma CursorRoundTrip(c: Option<ResourcesCursor>)
    ensures DecodeCursor(EncodeCursor(c)) == Ok(c)
  {
    if c.Some? {
      FieldsRoundTrip(EncodeFields(c.value), c.value);
    }
  }

  function ValidateCursorSort(c: Option<ResourcesCursor>, sortBy: SortBy, sortOrder: SortOrder): Option<CursorError> {
    if c.None? then None
    else if c.value.sortBy != sortBy then Some(SortByMismatch(c.value.sortBy, sortBy))
    else if c.value.sortOrder != sortOrder then Some(SortOrderMismatch(c.value.sortOrder, sortOrder))
    else None
  }

  // ----- the condition -----

  /** The pointers that the condition for sort s follows are set. */
  predicate Complete(s: SortBy, c: ResourcesCursor) {
    match s
    case ByCreatedAt => c.createdAt.Some?
    case ByUpdatedAt => c.updatedAt.Some?
    case ByCompositionId => c.compositionIdNull || c.compositionId.Some?
    case _ => true
  }

  function CursorOp(o: SortOrder): Operator {
    if o.Descending? then Less else Greater
  }

  function RowFragment(cs: seq<Column>, op: Operator, args: seq<Value>): Fragment {
    Fragment(Leaf(RowCompare(cs, op, CountFrom(1, |cs|))), args)
  }

  function CountFrom(first: nat, n: nat): (ns: seq<nat>)
    ensures |ns| == n && Sequential(ns, first)
    decreases n
  {
    if n == 0 then [] else [first] + CountFrom(first + 1, n - 1)
  }

  /** `composition_id op ? OR (composition_id = ? AND id op ?)` */
  function PastComposition(op: Operator): Syntax {
    Or(Leaf(Compare(CompositionId, op, 1)),
       Paren(And(Leaf(Compare(CompositionId, Equal, 2)), Leaf(Compare(Id, op, 3)))))
  }

  function CompositionIdCursorCondition(o: SortOrder, c: ResourcesCursor): Fragment
    requires Complete(ByCompositionId, c)
  {
    var op := CursorOp(o);
    if o.Descending? then
      if c.compositionIdNull then
        // (composition_id IS NULL AND id < ?) OR composition_id IS NOT NULL
        Fragment(Or(Paren(And(Leaf(IsNull(CompositionId)), Leaf(Compare(Id, Less, 1)))),
                    Leaf(IsNotNull(CompositionId))),
                 [Num(c.id)])
      else
        Fragment(Paren(PastComposition(op)),
                 [Text(c.compositionId.value), Text(c.compositionId.value), Num(c.id)])
    else if c.compositionIdNull then
      // composition_id IS NULL AND id > ?
      Fragment(And(Leaf(IsNull(CompositionId)), Leaf(Compare(Id, Greater, 1))), [Num(c.id)])
    else
      // ((… > ? OR (… = ? AND id > ?)) OR composition_id IS NULL)
      Fragment(Paren(Or(Paren(PastComposition(Greater)), Leaf(IsNull(CompositionId)))),
               [Text(c.compositionId.value), Text(c.compositionId.value), Num(c.id)])
  }

  function CursorCondition(s: SortBy, o: SortOrder, c: ResourcesCursor): Fragment
    requires Complete(s, c)
  {
    match s
    case ByCreatedAt => RowFragment([CreatedAt, Id], CursorOp(o), [Num(c.createdAt.value), Num(c.id)])
    case ByUpdatedAt => RowFragment([UpdatedAt, Id], CursorOp(o), [Num(c.updatedAt.value), Num(c.id)])
    case ByGlobalUid => RowFragment([GlobalUid, Id], CursorOp(o), [Text(c.globalUid), Num(c.id)])
    case ByCompositionId => CompositionIdCursorCondition(o, c)
    case _ => RowFragment(RESOURCE_COLUMNS, CursorOp(o),
      [Text(c.group), Text(c.version), Text(c.resource), Text(c.namespace), Text(c.name), Num(c.id)])
  }

  /** The one cursor whose condition has a bare OR: descending composition_id, after a row without one. */
  predicate BareOr(s: SortBy, o: SortOrder, c: ResourcesCursor) {
    s.ByCompositionId? && o.Descending? && c.compositionIdNull
  }

  lemma CursorConditionGood(s: SortBy, o: SortOrder, c: ResourcesCursor)
    requires Complete(s, c)
    ensures Good(CursorCondition(s, o, c))
    ensures AndSafe(CursorCondition(s, o, c).tree) <==> !BareOr(s, o, c)
  {
    if s.ByCompositionId? {
      var f := CompositionIdCursorCondition(o, c);
      assert Params(PastComposition(CursorOp(o))) == [1, 2, 3];
      assert Params(f.tree) == if c.compositionIdNull then [1] else [1, 2, 3];
    }
  }

  lemma BareOrHalvesMean(s: SortBy, o: SortOrder, c: ResourcesCursor, r: Row)
    requires BareOr(s, o, c)
    ensures var f := CursorCondition(s, o, c);
      f.tree.Or? &&
      (Eval(f.tree.left, f.args, r) == True <==> r.compositionId.None? && r.id < c.id) &&
      (Eval(f.tree.right, f.args, r) == True <==> r.compositionId.Some?)
  {
    var args := [Num(c.id)];
    CompareOne(Less, Num(r.id), Num(c.id));
    var tie := And(Leaf(IsNull(CompositionId)), Leaf(Compare(Id, Less, 1)));
    assert Eval(tie, args, r) == Both(Decide(r.compositionId.None?), CompareRows(Less, [Num(r.id)], [Num(c.id)]));
    assert Eval(Paren(tie), args, r) == Eval(tie, args, r);
  }

  /** A cursor built from a row has the fields its own sort follows. */
  lemma BuiltComplete(s: SortBy, o: SortOrder, rc: RowCursor)
    ensures Complete(s, BuildCursor(s, o, rc))
  {
  }

  // ----- the condition means "strictly after" -----

  lemma {:induction false} ArgsInOrder(before: seq<Value>, args: seq<Value>)
    ensures ArgList(before + args, CountFrom(|before| + 1, |args|)) == args
    decreases |args|
  {
    if args != [] {
      assert before + args == (before + [args[0]]) + args[1..];
      ArgsInOrder(before + [args[0]], args[1..]);
    }
  }

  lemma FieldsCompare(c: Column, x: Row, y: Row)
    requires !Nullable(c)
    ensures !Field(x, c).Null? && Bound(Field(x, c), Field(y, c)) == Field(y, c)
  {
  }

  /** Comparing row values is comparing the rows themselves in ORDER BY order, when no NULL is involved. */
  lemma {:induction false} RowCompareIsBefore(cs: seq<Column>, o: SortOrder, c: Row, r: Row)
    requires forall i :: 0 <= i < |cs| ==> !Nullable(cs[i])
    ensures CompareRows(CursorOp(o), Fields(r, cs), Fields(c, cs)) == True
       <==> Before(KeysFor(cs, o.Descending?), c, r)
  {
    hide Field, ValueLess, Bound;
    if cs != [] {
      var keys := KeysFor(cs, o.Descending?);
      FieldsCompare(cs[0], r, c);
      FieldsCompare(cs[0], c, r);
      assert keys[1..] == KeysFor(cs[1..], o.Descending?);
      assert Fields(r, cs)[1..] == Fields(r, cs[1..]) && Fields(c, cs)[1..] == Fields(c, cs[1..]);
      RowCompareIsBefore(cs[1..], o, c, r);
    }
  }

  lemma RowFragmentIsAfter(cs: seq<Column>, o: SortOrder, c: Row, r: Row)
    requires forall i :: 0 <= i < |cs| ==> !Nullable(cs[i])
    ensures var f := RowFragment(cs, CursorOp(o), Fields(c, cs));
      Eval(f.tree, f.args, r) == True <==> Before(KeysFor(cs, o.Descending?), c, r)
  {
    hide Before, CompareRows, Fields, CountFrom, ArgList;
    var args := Fields(c, cs);
    assert [] + args == args;
    ArgsInOrder([], args);
    RowCompareIsBefore(cs, o, c, r);
  }

  lemma {:induction false} FieldsOfTwo(r: Row, a: Column)
    ensures Fields(r, [a, Id]) == [Field(r, a), Num(r.id)]
  {
    assert [a, Id][1..] == [Id];
  }

  lemma FieldsOfResource(r: Row)
    ensures Fields(r, RESOURCE_COLUMNS)
         == [Text(r.group), Text(r.version), Text(r.plural), Text(r.namespace), Text(r.name), Num(r.id)]
  {
    FieldsOfTwo(r, ResourceName);
    FieldsStep(r, Namespace, [ResourceName, Id]);
    FieldsStep(r, ResourcePlural, [Namespace, ResourceName, Id]);
    FieldsStep(r, ResourceVersion, [ResourcePlural, Namespace, ResourceName, Id]);
    FieldsStep(r, ResourceGroup, [ResourceVersion, ResourcePlural, Namespace, ResourceName, Id]);
    assert RESOURCE_COLUMNS == [ResourceGroup] + [ResourceVersion, ResourcePlural, Namespace, ResourceName, Id];
  }

  lemma FieldsStep(r: Row, c: Column, cs: seq<Column>)
    ensures Fields(r, [c] + cs) == [Field(r, c)] + Fields(r, cs)
  {
    Tail(c, cs);
  }

  lemma CompareOne(op: Operator, a: Value, b: Value)
    requires op != AtLeast && !b.Null?
    ensures var y := Bound(a, b);
      CompareRows(op, [a], [b]) == True <==>
      !a.Null? && if op == Equal then a == y else a != y && if op == Less then ValueLess(a, y) else ValueLess(y, a)
    ensures a.Null? ==> CompareRows(op, [a], [b]) == Unknown
  {
    assert [a][1..] == [] && [b][1..] == [];
  }

  /** A cursor row with a composition_id: past it come later values, its own value with a later id,
      and NULLs last. */
  lemma ValueCursorIsAfter(o: SortOrder, c: Row, r: Row)
    requires c.compositionId.Some? && StoredRow(c)
    ensures var f := CompositionIdCursorCondition(o, BuildCursor(ByCompositionId, o, RowCursorOf(c)));
      Eval(f.tree, f.args, r) == True <==> Before(SortKeys(ByCompositionId, o), c, r)
  {
    var keys, op := SortKeys(ByCompositionId, o), CursorOp(o);
    var f := CompositionIdCursorCondition(o, BuildCursor(ByCompositionId, o, RowCursorOf(c)));
    IdKeyBefore(o, c, r);
    assert keys[1..] == [SortKey(Id, o.Descending?, None)];
    UuidIsLower(c.compositionId.value);
    PastCompositionMeans(op, c.compositionId.value, c.id, r);
    var past := Paren(PastComposition(op));
    assert Eval(past, f.args, r) == Eval(PastComposition(op), f.args, r);
    if !o.Descending? {
      var whole := Or(past, Leaf(IsNull(CompositionId)));
      assert Eval(whole, f.args, r) == Either(Eval(past, f.args, r), Decide(Field(r, CompositionId).Null?));
      assert f.tree == Paren(whole) && Eval(f.tree, f.args, r) == Eval(whole, f.args, r);
    }
  }

  /** A cursor row without one: past it come NULLs with a later id and, descending, every value. */
  lemma NullCursorIsAfter(o: SortOrder, c: Row, r: Row)
    requires c.compositionId.None?
    ensures var f := CompositionIdCursorCondition(o, BuildCursor(ByCompositionId, o, RowCursorOf(c)));
      Eval(f.tree, f.args, r) == True <==> Before(SortKeys(ByCompositionId, o), c, r)
  {
    var keys, op, args := SortKeys(ByCompositionId, o), CursorOp(o), [Num(c.id)];
    IdKeyBefore(o, c, r);
    assert keys[1..] == [SortKey(Id, o.Descending?, None)];
    CompareOne(op, Num(r.id), Num(c.id));
    var tie := And(Leaf(IsNull(CompositionId)), Leaf(Compare(Id, op, 1)));
    assert Eval(tie, args, r) == Both(Decide(Field(r, CompositionId).Null?), CompareRows(op, [Num(r.id)], [Num(c.id)]));
    assert Eval(Paren(tie), args, r) == Eval(tie, args, r);
  }

  lemma PastCompositionMeans(op: Operator, x: string, id: int, r: Row)
    requires (op == Less || op == Greater) && Lower(x) == x
    ensures var v := Field(r, CompositionId);
      Eval(PastComposition(op), [Text(x), Text(x), Num(id)], r) == True <==>
      if v == Uuid(x) then (if op == Less then r.id < id else id < r.id)
      else !v.Null? && if op == Less then ValueLess(v, Uuid(x)) else ValueLess(Uuid(x), v)
  {
    var v, args := Field(r, CompositionId), [Text(x), Text(x), Num(id)];
    var tie := And(Leaf(Compare(CompositionId, Equal, 2)), Leaf(Compare(Id, op, 3)));
    assert Eval(tie, args, r) == Both(EvalAtom(tie.left.atom, args, r), EvalAtom(tie.right.atom, args, r));
    assert Eval(Paren(tie), args, r) == Eval(tie, args, r);
    CompareOne(op, v, Text(x));
    CompareOne(Equal, v, Text(x));
    CompareOne(op, Num(r.id), Num(id));
  }

  /** Past a row with a composition_id, descending, every row has one. */
  lemma PastRowHasComposition(o: SortOrder, c: ResourcesCursor, r: Row)
    requires o.Descending? && Complete(ByCompositionId, c) && !c.compositionIdNull
    requires var f := CursorCondition(ByCompositionId, o, c); Eval(f.tree, f.args, r) == True
    ensures r.compositionId.Some?
  {
    var v := Field(r, CompositionId);
    var args := [Text(c.compositionId.value), Text(c.compositionId.value), Num(c.id)];
    var past := PastComposition(Less);
    var tie := And(Leaf(Compare(CompositionId, Equal, 2)), Leaf(Compare(Id, Less, 3)));
    assert Eval(Paren(past), args, r) == Eval(past, args, r);
    assert Eval(past, args, r) == Either(EvalAtom(past.left.atom, args, r), Eval(Paren(tie), args, r));
    assert Eval(Paren(tie), args, r) == Eval(tie, args, r);
    assert Eval(tie, args, r) == Both(EvalAtom(tie.left.atom, args, r), EvalAtom(tie.right.atom, args, r));
    CompareOne(Less, v, args[0]);
    CompareOne(Equal, v, args[1]);
  }

  lemma IdKeyBefore(o: SortOrder, c: Row, r: Row)
    ensures Before([SortKey(Id, o.Descending?, None)], c, r) <==> if o.Descending? then r.id < c.id else c.id < r.id
  {
    assert [SortKey(Id, o.Descending?, None)][1..] == [];
  }

  lemma RowSortIsAfter(s: SortBy, o: SortOrder, c: Row, r: Row)
    requires !s.ByCompositionId?
    requires CursorCondition(s, o, BuildCursor(s, o, RowCursorOf(c)))
          == RowFragment(SortColumns(s), CursorOp(o), Fields(c, SortColumns(s)))
    ensures var f := CursorCondition(s, o, BuildCursor(s, o, RowCursorOf(c)));
      Eval(f.tree, f.args, r) == True <==> Before(SortKeys(s, o), c, r)
  {
    RowFragmentIsAfter(SortColumns(s), o, c, r);
  }

  /** For every sort and direction: a row passes the condition of the cursor built from a stored row c
      exactly when it comes after c. */
  lemma CursorMeansAfter(s: SortBy, o: SortOrder, c: Row, r: Row)
    requires ValidSortBy(s) && s != Unset && StoredRow(c)
    ensures var f := CursorCondition(s, o, BuildCursor(s, o, RowCursorOf(c)));
      Eval(f.tree, f.args, r) == True <==> Before(SortKeys(s, o), c, r)
  {
    match s
    case ByCompositionId =>
      if c.compositionId.Some? {
        ValueCursorIsAfter(o, c, r);
      } else {
        NullCursorIsAfter(o, c, r);
      }
    case ByCreatedAt => FieldsOfTwo(c, CreatedAt); RowSortIsAfter(s, o, c, r);
    case ByUpdatedAt => FieldsOfTwo(c, UpdatedAt); RowSortIsAfter(s, o, c, r);
    case ByGlobalUid => FieldsOfTwo(c, GlobalUid); RowSortIsAfter(s, o, c, r);
    case ByResource => FieldsOfResource(c); RowSortIsAfter(s, o, c, r);
  }

  // ----- which requests accept which cursors -----

  /** A cursor made by one request is accepted by another exactly when both sort alike, defaults written out or not. */
  lemma CursorAcceptance(s1: SortBy, o1: SortOrder, s2: SortBy, o2: SortOrder, rc: RowCursor)
    ensures var (by1, by2) := (NormaliseSortBy(s1), NormaliseSortBy(s2));
      var (order1, order2) := (NormaliseSortOrder(o1, by1), NormaliseSortOrder(o2, by2));
      var decoded := DecodeCursor(EncodeCursor(Some(BuildCursor(by1, order1, rc))));
      decoded.Ok? &&
      (ValidateCursorSort(decoded.value, by2, order2).None? <==> by1 == by2 && order1 == order2)
  {
    var by1 := NormaliseSortBy(s1);
    CursorRoundTrip(Some(BuildCursor(by1, NormaliseSortOrder(o1, by1), rc)));
  }

  /** The two meanings of a missing composition_id stay apart. */
  lemma NullStaysDistinct(s: SortBy, o: SortOrder, rc: RowCursor)
    ensures var decoded := DecodeCursor(EncodeCursor(Some(BuildCursor(s, o, rc))));
      decoded.Ok? && decoded.value.Some? && Complete(s, decoded.value.value) &&
      (decoded.value.value.compositionIdNull <==> s.ByCompositionId? && rc.compositionId.None?) &&
      (decoded.value.value.compositionId.Some? <==> s.ByCompositionId? && rc.compositionId.Some?)
  {
    CursorRoundTrip(Some(BuildCursor(s, o, rc)));
  }
}
