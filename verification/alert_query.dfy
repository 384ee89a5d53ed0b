/** Building the parameterised alert queries (siem-server/alerts/alert_storage.go). The text is kept
    as its pieces: each piece is one appended fragment with the number of its placeholder. */
module AlertQuery {
  import opened Wrappers
  import opened Clock
  import opened Sequences
  import opened Sorting

  datatype Alert = Alert(id: int, ruleID: string, severity: string, status: string, createdAt: Time)

  datatype AlertFilter = AlertFilter(
    ruleID: string, severity: string, status: string,
    from: Option<Time>, to: Option<Time>, limit: int, offset: int)

  datatype Column = RuleIdEquals | SeverityEquals | StatusEquals | CreatedFrom | CreatedTo

  datatype Piece =
    | SelectRows
    | SelectCount
    | And(column: Column, placeholder: nat)
    | OrderByCreatedDesc
    | Limit(placeholder: nat)
    | Offset(placeholder: nat)

  datatype Value = Text(text: string) | Stamp(time: Time) | Number(number: int)

  // ---------------------------------------------------------------- what a query text means

  /** The value bound to $n. */
  function Bound(args: seq<Value>, n: nat): Option<Value> {
    if 1 <= n <= |args| then Some(args[n - 1]) else None
  }

  predicate Holds(column: Column, v: Option<Value>, a: Alert) {
    match (column, v)
    case (RuleIdEquals, Some(Text(t))) => a.ruleID == t
    case (SeverityEquals, Some(Text(t))) => a.severity == t
    case (StatusEquals, Some(Text(t))) => a.status == t
    case (CreatedFrom, Some(Stamp(t))) => a.createdAt >= t
    case (CreatedTo, Some(Stamp(t))) => a.createdAt <= t
    case _ => false
  }

  /** The WHERE clause: the conjunction of its pieces. */
  predicate Selects(query: seq<Piece>, args: seq<Value>, a: Alert) {
    forall i :: 0 <= i < |query| && query[i].And? ==> Holds(query[i].column, Bound(args, query[i].placeholder), a)
  }

  function LimitOf(query: seq<Piece>, args: seq<Value>): Option<int> {
    if query == [] then None
    else
      var p := query[|query| - 1];
      if !p.Limit? then LimitOf(query[..|query| - 1], args)
      else match Bound(args, p.placeholder)
        case Some(Number(n)) => Some(n)
        case _ => None
  }

  function OffsetOf(query: seq<Piece>, args: seq<Value>): int {
    if query == [] then 0
    else
      var p := query[|query| - 1];
      if !p.Offset? then OffsetOf(query[..|query| - 1], args)
      else match Bound(args, p.placeholder)
        case Some(Number(n)) => n
        case _ => 0
  }

  /** Newest first; among equal times a fixed order. */
  function NewestFirst(a: Alert): Key {
    Key(-a.createdAt, a.id, 0)
  }

  /** Skip `offset` rows, then keep at most `limit`. */
  function Page(rows: seq<Alert>, offset: int, limit: Option<int>): seq<Alert> {
    var rest := if offset <= 0 then rows else if offset <= |rows| then rows[offset..] else [];
    if limit.Some? && 0 <= limit.value < |rest| then rest[..limit.value] else rest
  }

  function Selector(query: seq<Piece>, args: seq<Value>): Alert -> bool {
    (a: Alert) => Selects(query, args, a)
  }

  /** The rows the database returns for a text and its arguments. */
  function Rows(query: seq<Piece>, args: seq<Value>, table: seq<Alert>): seq<Alert> {
    var chosen := Filter(Selector(query, args), table);
    Page(if OrderByCreatedDesc in query then Sort(NewestFirst, chosen) else chosen, OffsetOf(query, args), LimitOf(query, args))
  }

  /** The placeholders of a text, in order of appearance. */
  function Placeholders(query: seq<Piece>): seq<nat> {
    if query == [] then []
    else
      var p := query[|query| - 1];
      Placeholders(query[..|query| - 1]) + (if p.And? || p.Limit? || p.Offset? then [p.placeholder] else [])
  }

  /** $1, $2, ..., $n. */
  function Numbered(n: nat): seq<nat> {
    seq(n, i => i + 1)
  }

  // ---------------------------------------------------------------- what a filter means

  predicate Matches(f: AlertFilter, a: Alert) {
    && (f.ruleID != "" ==> a.ruleID == f.ruleID)
    && (f.severity != "" ==> a.severity == f.severity)
    && (f.status != "" ==> a.status == f.status)
    && (f.from.Some? ==> a.createdAt >= f.from.value)
    && (f.to.Some? ==> a.createdAt <= f.to.value)
  }

  function Matcher(f: AlertFilter): Alert -> bool {
    (a: Alert) => Matches(f, a)
  }

  function Wanted(f: AlertFilter, table: seq<Alert>): seq<Alert> {
    Page(Sort(NewestFirst, Filter(Matcher(f), table)), f.offset, if f.limit > 0 then Some(f.limit) else None)
  }

  // ---------------------------------------------------------------- building

  /** A text under construction: its conditions mean `m`, its placeholders are $1 .. $n, no paging yet. */
  ghost predicate Built(query: seq<Piece>, args: seq<Value>, m: Alert -> bool) {
    && Placeholders(query) == Numbered(|args|)
    && (forall i :: 0 <= i < |query| && query[i].And? ==> 1 <= query[i].placeholder <= |args|)
    && (forall a :: Selects(query, args, a) <==> m(a))
    && (forall p :: p in query ==> p.SelectRows? || p.SelectCount? || p.And?)
  }

  /** Appending one condition with its argument. */
  lemma AppendCondition(query: seq<Piece>, args: seq<Value>, m: Alert -> bool, column: Column, v: Value, m': Alert -> bool)
    requires Built(query, args, m)
    requires forall a :: m'(a) <==> m(a) && Holds(column, Some(v), a)
    ensures Built(query + [And(column, |args| + 1)], args + [v], m')
  {
    var q, as_ := query + [And(column, |args| + 1)], args + [v];
    assert q[..|query|] == query;
    assert forall i :: 0 <= i < |query| && query[i].And? ==> Bound(as_, query[i].placeholder) == Bound(args, query[i].placeholder);
    forall a ensures Selects(q, as_, a) <==> m'(a) {
      if Selects(q, as_, a) {
        assert q[|query|] == And(column, |args| + 1);
        forall i | 0 <= i < |query| && query[i].And? ensures Holds(query[i].column, Bound(args, query[i].placeholder), a) {
          assert q[i] == query[i];
        }
        assert Selects(query, args, a);
      }
    }
  }

  /** One `if` of the builder: append the condition, its argument, and move on to the next placeholder. */
  method AppendIf(query: seq<Piece>, args: seq<Value>, argPos: nat, present: bool, column: Column, v: Value,
                  ghost m: Alert -> bool, ghost m': Alert -> bool)
    returns (query': seq<Piece>, args': seq<Value>, argPos': nat)
    requires Built(query, args, m) && argPos == |args| + 1
    requires forall a :: m'(a) <==> m(a) && (present ==> Holds(column, Some(v), a))
    ensures Built(query', args', m') && argPos' == |args'| + 1
  {
    query', args', argPos' := query, args, argPos;
    if present {
      AppendCondition(query, args, m, column, v, m');
      query' := query + [And(column, argPos)];
      args' := args + [v];
      argPos' := argPos + 1;
    }
  }

  lemma NoConditions(head: Piece, m: Alert -> bool)
    requires (head.SelectRows? || head.SelectCount?) && forall a :: m(a)
    ensures Built([head], [], m)
  {
    assert [head][..0] == [];
  }

  /** The conditions shared by GetAlerts and CountAlerts. */
  method AppendFilters(head: Piece, f: AlertFilter) returns (query: seq<Piece>, args: seq<Value>, argPos: nat)
    requires head.SelectRows? || head.SelectCount?
    ensures Built(query, args, Matcher(f)) && argPos == |args| + 1
  {
    query, args, argPos := [head], [], 1;
    ghost var f0 := AlertFilter("", "", "", None, None, f.limit, f.offset);
    ghost var f1 := f0.(ruleID := f.ruleID);
    ghost var f2 := f1.(severity := f.severity);
    ghost var f3 := f2.(status := f.status);
    ghost var f4 := f3.(from := f.from);
    NoConditions(head, Matcher(f0));
    query, args, argPos := AppendIf(query, args, argPos, f.ruleID != "", RuleIdEquals, Text(f.ruleID), Matcher(f0), Matcher(f1));
    query, args, argPos := AppendIf(query, args, argPos, f.severity != "", SeverityEquals, Text(f.severity), Matcher(f1), Matcher(f2));
    query, args, argPos := AppendIf(query, args, argPos, f.status != "", StatusEquals, Text(f.status), Matcher(f2), Matcher(f3));
    if f.from.Some? {
      query, args, argPos := AppendIf(query, args, argPos, true, CreatedFrom, Stamp(f.from.value), Matcher(f3), Matcher(f4));
    }
    if f.to.Some? {
      query, args, argPos := AppendIf(query, args, argPos, true, CreatedTo, Stamp(f.to.value), Matcher(f4), Matcher(f));
    }
    assert f.from.None? ==> f4 == f3;
    assert f.to.None? ==> f == f4;
  }

  // ---------------------------------------------------------------- the two queries

  lemma {:induction false} NoPaging(query: seq<Piece>, args: seq<Value>)
    requires forall p :: p in query ==> !p.Limit? && !p.Offset?
    ensures LimitOf(query, args) == None && OffsetOf(query, args) == 0
  {
    if query != [] {
      var init := query[..|query| - 1];
      assert query[|query| - 1] in query;
      assert forall p :: p in init ==> p in query;
      NoPaging(init, args);
    }
  }

  lemma PieceSnoc(query: seq<Piece>, p: Piece, args: seq<Value>)
    ensures Placeholders(query + [p]) == Placeholders(query) + (if p.And? || p.Limit? || p.Offset? then [p.placeholder] else [])
    ensures !p.Limit? ==> LimitOf(query + [p], args) == LimitOf(query, args)
    ensures p.Limit? && Bound(args, p.placeholder).Some? && Bound(args, p.placeholder).value.Number? ==>
              LimitOf(query + [p], args) == Some(args[p.placeholder - 1].number)
    ensures !p.Offset? ==> OffsetOf(query + [p], args) == OffsetOf(query, args)
    ensures p.Offset? && Bound(args, p.placeholder).Some? && Bound(args, p.placeholder).value.Number? ==>
              OffsetOf(query + [p], args) == args[p.placeholder - 1].number
  {
    assert (query + [p])[..|query|] == query;
  }

  /** The tail GetAlerts appends to its conditions, and the arguments it appends with it. */
  function Tail(f: AlertFilter, argPos: nat): seq<Piece> {
    [OrderByCreatedDesc]
      + (if f.limit > 0 then [Limit(argPos)] else [])
      + (if f.offset > 0 then [Offset(if f.limit > 0 then argPos + 1 else argPos)] else [])
  }

  function TailArgs(f: AlertFilter): seq<Value> {
    (if f.limit > 0 then [Number(f.limit)] else []) + (if f.offset > 0 then [Number(f.offset)] else [])
  }

  /** A text whose placeholders are $1 .. $n and whose paging stays as given when arguments are added. */
  ghost predicate Paged(query: seq<Piece>, args: seq<Value>, more: seq<Value>, limit: Option<int>, offset: int) {
    && Placeholders(query) == Numbered(|args|)
    && LimitOf(query, args + more) == limit
    && OffsetOf(query, args + more) == offset
  }

  lemma OrderPages(query: seq<Piece>, args: seq<Value>, m: Alert -> bool, more: seq<Value>)
    requires Built(query, args, m)
    ensures Paged(query + [OrderByCreatedDesc], args, more, None, 0)
  {
    assert forall p :: p in query ==> !p.Limit? && !p.Offset?;
    NoPaging(query, args + more);
    PieceSnoc(query, OrderByCreatedDesc, args + more);
  }

  lemma LimitPages(query: seq<Piece>, args: seq<Value>, n: int, more: seq<Value>)
    requires Paged(query, args, [Number(n)] + more, None, 0)
    ensures Paged(query + [Limit(|args| + 1)], args + [Number(n)], more, Some(n), 0)
  {
    var all := args + [Number(n)] + more;
    assert all == args + ([Number(n)] + more);
    PieceSnoc(query, Limit(|args| + 1), all);
    assert all[|args|] == Number(n);
  }

  lemma OffsetPages(query: seq<Piece>, args: seq<Value>, n: int, limit: Option<int>)
    requires Paged(query, args, [Number(n)], limit, 0)
    ensures Paged(query + [Offset(|args| + 1)], args + [Number(n)], [], limit, n)
  {
    var all := args + [Number(n)];
    assert all + [] == all;
    PieceSnoc(query, Offset(|args| + 1), all);
  }

  lemma TailPages(query: seq<Piece>, args: seq<Value>, m: Alert -> bool, f: AlertFilter)
    requires Built(query, args, m)
    ensures Paged(query + Tail(f, |args| + 1), args + TailArgs(f), [],
                  if f.limit > 0 then Some(f.limit) else None, if f.offset > 0 then f.offset else 0)
  {
    var last := if f.offset > 0 then [Number(f.offset)] else [];
    var q1 := query + [OrderByCreatedDesc];
    var q2 := if f.limit > 0 then q1 + [Limit(|args| + 1)] else q1;
    var a2 := if f.limit > 0 then args + [Number(f.limit)] else args;
    OrderPages(query, args, m, if f.limit > 0 then [Number(f.limit)] + last else last);
    if f.limit > 0 {
      LimitPages(q1, args, f.limit, last);
    }
    if f.offset > 0 {
      OffsetPages(q2, a2, f.offset, if f.limit > 0 then Some(f.limit) else None);
    }
    assert query + Tail(f, |args| + 1) == if f.offset > 0 then q2 + [Offset(|a2| + 1)] else q2;
    assert args + TailArgs(f) == if f.offset > 0 then a2 + last else a2;
  }

  /** Adding the order and paging pieces leaves the conditions as they were. */
  lemma SelectsTail(query: seq<Piece>, args: seq<Value>, tail: seq<Piece>, more: seq<Value>, m: Alert -> bool)
    requires Built(query, args, m)
    requires forall i :: 0 <= i < |tail| ==> !tail[i].And?
    ensures forall a :: Selects(query + tail, args + more, a) <==> m(a)
  {
    var q, all := query + tail, args + more;
    assert forall i :: 0 <= i < |query| && query[i].And? ==> Bound(all, query[i].placeholder) == Bound(args, query[i].placeholder);
    forall a ensures Selects(q, all, a) <==> Selects(query, args, a) {
      if Selects(q, all, a) {
        forall i | 0 <= i < |query| && query[i].And? ensures Holds(query[i].column, Bound(args, query[i].placeholder), a) {
          assert q[i] == query[i];
        }
      }
    }
  }

  /** The finished text means the filter. */
  lemma TextMeans(query: seq<Piece>, args: seq<Value>, f: AlertFilter)
    requires Built(query, args, Matcher(f))
    ensures var q, all := query + Tail(f, |args| + 1), args + TailArgs(f);
            && Placeholders(q) == Numbered(|all|)
            && forall t :: Rows(q, all, t) == Wanted(f, t)
  {
    var q, all := query + Tail(f, |args| + 1), args + TailArgs(f);
    TailPages(query, args, Matcher(f), f);
    assert all + [] == all;
    SelectsTail(query, args, Tail(f, |args| + 1), TailArgs(f), Matcher(f));
    assert q[|query|] == OrderByCreatedDesc;
    forall t ensures Rows(q, all, t) == Wanted(f, t) {
      FilterAlike(Selector(q, all), Matcher(f), t);
    }
  }

  class AlertStorage {
    var table: seq<Alert>

    /** The text and arguments of GetAlerts: placeholders exactly $1 .. $n in order, and over every
        table the rows of the filter, newest first, paged. */
    method BuildGetAlerts(f: AlertFilter) returns (query: seq<Piece>, args: seq<Value>)
      ensures Placeholders(query) == Numbered(|args|)
      ensures forall t :: Rows(query, args, t) == Wanted(f, t)
    {
      var argPos: nat;
      query, args, argPos := AppendFilters(SelectRows, f);
      ghost var query0, args0 := query, args;
      query := query + [OrderByCreatedDesc];
      if f.limit > 0 {
        query := query + [Limit(argPos)];
        args := args + [Number(f.limit)];
        argPos := argPos + 1;
      }
      if f.offset > 0 {
        query := query + [Offset(argPos)];
        args := args + [Number(f.offset)];
      }
      assert query == query0 + Tail(f, |args0| + 1) && args == args0 + TailArgs(f);
      TextMeans(query0, args0, f);
    }

    method GetAlerts(f: AlertFilter) returns (rows: seq<Alert>)
      ensures rows == Wanted(f, table)
    {
      var query, args := BuildGetAlerts(f);
      rows := Rows(query, args, table);
    }

    method CountAlerts(f: AlertFilter) returns (count: nat)
      ensures count == |Filter(Matcher(f), table)|
    {
      var query, args, _ := AppendFilters(SelectCount, f);
      assert forall p :: p in query ==> !p.Limit? && !p.Offset?;
      NoPaging(query, args);
      FilterAlike(Selector(query, args), Matcher(f), table);
      count := |Rows(query, args, table)|;
    }
  }

  // ---------------------------------------------------------------- counting and paging agree

  /** CountAlerts(f) is the number of rows GetAlerts(f) returns without paging. */
  lemma CountIsLength(f: AlertFilter, table: seq<Alert>)
    ensures |Filter(Matcher(f), table)| == |Wanted(f.(limit := 0, offset := 0), table)|
  {
    var g := f.(limit := 0, offset := 0);
    FilterAlike(Matcher(f), Matcher(g), table);
    SortSorted(NewestFirst, Filter(Matcher(g), table));
  }

  /** The unpaged rows are exactly the rows of the table that meet every given filter, each as often as in
      the table, newest first. */
  lemma WantedRows(f: AlertFilter, table: seq<Alert>)
    ensures var rows := Wanted(f.(limit := 0, offset := 0), table);
            && (forall a :: multiset(rows)[a] ==
                 if && (f.ruleID == "" || a.ruleID == f.ruleID)
                    && (f.severity == "" || a.severity == f.severity)
                    && (f.status == "" || a.status == f.status)
                    && (f.from.None? || a.createdAt >= f.from.value)
                    && (f.to.None? || a.createdAt <= f.to.value)
                 then multiset(table)[a] else 0)
            && (forall i, j :: 0 <= i < j < |rows| ==> rows[i].createdAt >= rows[j].createdAt)
  {
    var g := f.(limit := 0, offset := 0);
    var kept, rows := Filter(Matcher(g), table), Wanted(g, table);
    SortSorted(NewestFirst, kept);
    forall a ensures multiset(rows)[a] == if Matches(f, a) then multiset(table)[a] else 0 {
      FilterMultiplicity(Matcher(g), table, a);
    }
    forall i, j | 0 <= i < j < |rows| ensures rows[i].createdAt >= rows[j].createdAt {
      assert Le(NewestFirst(rows[i]), NewestFirst(rows[j]));
    }
  }

  /** A positive offset skips that many rows, a positive limit keeps that many at most; either may be given
      without the other. */
  lemma WantedPaged(f: AlertFilter, table: seq<Alert>)
    ensures var all, rows := Wanted(f.(limit := 0, offset := 0), table), Wanted(f, table);
            var from := if f.offset > 0 then f.offset else 0;
            var left := if from < |all| then |all| - from else 0;
            && |rows| == (if 0 < f.limit < left then f.limit else left)
            && forall i :: 0 <= i < |rows| ==> rows[i] == all[from + i]
  {
    hide Wanted, Page;
    WantedIsPage(f, table);
    PageMeans(Wanted(f.(limit := 0, offset := 0), table), f.offset, if f.limit > 0 then Some(f.limit) else None);
  }

  /** A page of the filter is that page of the unpaged rows. */
  lemma WantedIsPage(f: AlertFilter, table: seq<Alert>)
    ensures Wanted(f, table) ==
              Page(Wanted(f.(limit := 0, offset := 0), table), f.offset, if f.limit > 0 then Some(f.limit) else None)
  {
    hide Matches, Filter, Sort;
    FilterAsMatched(f, table);
    assert Wanted(f.(limit := 0, offset := 0), table) == Sort(NewestFirst, Filter(Matcher(f), table));
  }

  /** Paging has no part in what matches. */
  lemma FilterAsMatched(f: AlertFilter, table: seq<Alert>)
    ensures Filter(Matcher(f.(limit := 0, offset := 0)), table) == Filter(Matcher(f), table)
  {
    FilterAlike(Matcher(f.(limit := 0, offset := 0)), Matcher(f), table);
  }

  lemma PageMeans(all: seq<Alert>, offset: int, limit: Option<int>)
    requires limit.Some? ==> limit.value > 0
    ensures var from := if offset > 0 then offset else 0;
            var left := if from < |all| then |all| - from else 0;
            var rows := Page(all, offset, limit);
            && |rows| == (if limit.Some? && limit.value < left then limit.value else left)
            && forall i :: 0 <= i < |rows| ==> rows[i] == all[from + i]
  {
  }

  /** The offset of page n, counting from 1. */
  function OffsetOfPage(n: nat, size: nat): (from: nat)
    requires n > 0
    ensures n * size == from + size
  {
    (n - 1) * size
  }

  /** The first n pages of size L, one after the other. */
  function Pages(f: AlertFilter, size: nat, n: nat, table: seq<Alert>): seq<Alert> {
    if n == 0 then [] else Pages(f, size, n - 1, table) + Wanted(f.(limit := size, offset := OffsetOfPage(n, size)), table)
  }

  lemma PageStep(all: seq<Alert>, from: nat, size: nat)
    requires size > 0
    ensures Prefix(all, from) + Page(all, from, Some(size)) == Prefix(all, from + size)
  {
  }

  lemma WantedPage(f: AlertFilter, size: int, offset: nat, table: seq<Alert>)
    requires size > 0
    ensures Wanted(f.(limit := size, offset := offset), table) == Page(Wanted(f.(limit := 0, offset := 0), table), offset, Some(size))
  {
    hide Wanted, Page;
    WantedIsPage(f.(limit := size, offset := offset), table);
  }

  /** Pages at offsets 0, L, 2L, ... concatenate to a prefix of the unpaged list, and to all of it once
      they cover it: no row is skipped or repeated. */
  lemma {:induction false} PagesConcatenate(f: AlertFilter, size: nat, n: nat, table: seq<Alert>)
    requires size > 0
    ensures Pages(f, size, n, table) == Prefix(Wanted(f.(limit := 0, offset := 0), table), n * size)
  {
    hide Wanted, Page;
    if n > 0 {
      PagesConcatenate(f, size, n - 1, table);
      var from := OffsetOfPage(n, size);
      WantedPage(f, size, from, table);
      PageStep(Wanted(f.(limit := 0, offset := 0), table), from, size);
    }
  }
}
