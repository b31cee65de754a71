/**
 * The partial-update pattern shared by the four PUT handlers: starting from
 * `UPDATE <table> SET `, each recognised field that is supplied appends
 * `<column> = ?, ` to the text and pushes one value; then the last two
 * characters are sliced off, ` WHERE <key> = ?` is appended and the key value
 * is pushed last.
 */
module UpdateBuilder {
  import opened Values
  import opened Strings

  /**
   * One guarded append of a handler: when `present`, the text `column = ?, `
   * is appended and `bound` is pushed. The guard and the pushed value are kept
   * apart because a handler may test one field and push another.
   */
  datatype Slot = Slot(column: string, present: bool, bound: Value)

  /** The statement handed to the store: SQL text and positional parameters. */
  datatype Query = Query(sql: string, params: seq<Value>)

  /** The corrected builder's outcome: a query, or a refusal when nothing is supplied. */
  datatype Checked = Issued(query: Query) | NoFieldsSupplied

  /** The slots whose guard holds, in their fixed order. */
  function Present(slots: seq<Slot>): (r: seq<Slot>)
    ensures |r| <= |slots|
  {
    if |slots| == 0 then []
    else (if slots[0].present then [slots[0]] else []) + Present(slots[1..])
  }

  /** The supplied slots are exactly the slots whose guard holds. */
  lemma {:induction false} PresentMembers(slots: seq<Slot>)
    ensures forall s :: s in Present(slots) <==> s in slots && s.present
  {
    if |slots| > 0 {
      PresentMembers(slots[1..]);
      assert slots == [slots[0]] + slots[1..];
    }
  }

  function Columns(slots: seq<Slot>): (r: seq<string>)
    ensures |r| == |slots|
    ensures forall i :: 0 <= i < |slots| ==> r[i] == slots[i].column
  {
    seq(|slots|, i requires 0 <= i < |slots| => slots[i].column)
  }

  function Bound(slots: seq<Slot>): (r: seq<Value>)
    ensures |r| == |slots|
    ensures forall i :: 0 <= i < |slots| ==> r[i] == slots[i].bound
  {
    seq(|slots|, i requires 0 <= i < |slots| => slots[i].bound)
  }

  /** `column = ?` */
  function Assignment(column: string): string
  {
    column + " = ?"
  }

  function Assignments(columns: seq<string>): (r: seq<string>)
    ensures |r| == |columns|
    ensures forall i :: 0 <= i < |columns| ==> r[i] == Assignment(columns[i])
  {
    seq(|columns|, i requires 0 <= i < |columns| => Assignment(columns[i]))
  }

  /**
   * Reference rendering of an update of `columns` matched on `key`: the
   * assignments joined by `, ` when there is at least one column; with none,
   * the text that remains once the slice has cut into `SET`.
   */
  function Statement(table: string, columns: seq<string>, key: string): string
  {
    if |columns| == 0 then "UPDATE " + table + " SE WHERE " + key + " = ?"
    else "UPDATE " + table + " SET " + Join(Assignments(columns), ", ") + " WHERE " + key + " = ?"
  }

  /** The text the guarded appends accumulate after `SET `. */
  function Appended(slots: seq<Slot>): string
  {
    if |slots| == 0 then ""
    else (if slots[0].present then slots[0].column + " = ?, " else "") + Appended(slots[1..])
  }

  /** The values the guarded appends push, in push order. */
  function Pushed(slots: seq<Slot>): seq<Value>
  {
    if |slots| == 0 then []
    else (if slots[0].present then [slots[0].bound] else []) + Pushed(slots[1..])
  }

  /** The text appended for a list of assigned columns, trailing `, ` included. */
  function AppendedColumns(columns: seq<string>): string
  {
    if |columns| == 0 then "" else columns[0] + " = ?, " + AppendedColumns(columns[1..])
  }

  lemma {:induction false} AppendedIsAppendedColumns(slots: seq<Slot>)
    ensures Appended(slots) == AppendedColumns(Columns(Present(slots)))
  {
    if |slots| > 0 {
      AppendedIsAppendedColumns(slots[1..]);
      var rest := Columns(Present(slots[1..]));
      if slots[0].present {
        assert Present(slots) == [slots[0]] + Present(slots[1..]);
        var cs := Columns(Present(slots));
        assert cs[0] == slots[0].column;
        assert cs[1..] == rest;
      } else {
        assert Present(slots) == Present(slots[1..]);
      }
    }
  }

  lemma {:induction false} AppendedColumnsIsTrailingJoin(columns: seq<string>)
    requires |columns| > 0
    ensures AppendedColumns(columns) == Join(Assignments(columns), ", ") + ", "
  {
    var a := Assignments(columns);
    if |columns| == 1 {
      assert a == [columns[0] + " = ?"];
    } else {
      AppendedColumnsIsTrailingJoin(columns[1..]);
      assert a[1..] == Assignments(columns[1..]);
      assert Join(a, ", ") == a[0] + ", " + Join(a[1..], ", ");
    }
  }

  lemma {:induction false} PushedIsPresentBound(slots: seq<Slot>)
    ensures Pushed(slots) == Bound(Present(slots))
  {
    if |slots| > 0 {
      PushedIsPresentBound(slots[1..]);
      if slots[0].present {
        assert Present(slots) == [slots[0]] + Present(slots[1..]);
      } else {
        assert Present(slots) == Present(slots[1..]);
      }
    }
  }

  lemma {:induction false} JoinedAssignmentsPlaceholders(columns: seq<string>)
    requires |columns| > 0
    requires forall i :: 0 <= i < |columns| ==> '?' !in columns[i]
    ensures Count(Join(Assignments(columns), ", "), '?') == |columns|
  {
    var c := columns[0];
    AssignmentPlaceholder(c);
    if |columns| > 1 {
      var tail := Assignments(columns)[1..];
      assert tail == Assignments(columns[1..]);
      JoinedAssignmentsPlaceholders(columns[1..]);
      CountConcat(Assignment(c), ", ", '?');
      CountZero(", ", '?');
      CountConcat(Assignment(c) + ", ", Join(tail, ", "), '?');
    }
  }

  /** The placeholder-free parts of the text a handler writes. */
  predicate NoPlaceholders(table: string, slots: seq<Slot>, key: string)
  {
    && '?' !in table
    && '?' !in key
    && forall i :: 0 <= i < |slots| ==> '?' !in slots[i].column
  }

  lemma AssignmentPlaceholder(column: string)
    requires '?' !in column
    ensures Count(Assignment(column), '?') == 1
  {
    CountZero(column, '?');
    CountConcat(column, " = ", '?');
    CountZero(" = ", '?');
    CountConcat(column + " = ", "?", '?');
    assert Assignment(column) == column + " = " + "?";
  }

  /** The fixed words around the table name carry no `?`. */
  lemma HeadPlaceholders(table: string)
    requires '?' !in table
    ensures Count("UPDATE " + table + " SE", '?') == 0
    ensures Count("UPDATE " + table + " SET ", '?') == 0
  {
    assert '?' !in "UPDATE " + table + " SE";
    assert '?' !in "UPDATE " + table + " SET ";
    CountZero("UPDATE " + table + " SE", '?');
    CountZero("UPDATE " + table + " SET ", '?');
  }

  /** The match clause carries the key's single `?`. */
  lemma WherePlaceholders(key: string)
    requires '?' !in key
    ensures Count(" WHERE " + key + " = ?", '?') == 1
  {
    assert " WHERE " + key + " = ?" == Assignment(" WHERE " + key);
    assert '?' !in " WHERE " + key;
    AssignmentPlaceholder(" WHERE " + key);
  }

  lemma StatementPlaceholders(table: string, columns: seq<string>, key: string)
    requires '?' !in table && '?' !in key
    requires forall i :: 0 <= i < |columns| ==> '?' !in columns[i]
    ensures Count(Statement(table, columns, key), '?') == |columns| + 1
  {
    WherePlaceholders(key);
    HeadPlaceholders(table);
    if |columns| == 0 {
      EmptyStatementPlaceholders(table, key);
    } else {
      JoinedAssignmentsPlaceholders(columns);
      SetStatementPlaceholders(table, Join(Assignments(columns), ", "), key);
    }
  }

  lemma EmptyStatementPlaceholders(table: string, key: string)
    requires Count("UPDATE " + table + " SE", '?') == 0
    requires Count(" WHERE " + key + " = ?", '?') == 1
    ensures Count(Statement(table, [], key), '?') == 1
  {
    var head := "UPDATE " + table + " SE";
    var where := " WHERE " + key + " = ?";
    AppendAssoc(head + " WHERE ", key, " = ?");
    AppendAssoc(head, " WHERE ", key);
    AppendAssoc(head, " WHERE " + key, " = ?");
    assert "UPDATE " + table + " SE WHERE " == head + " WHERE ";
    assert Statement(table, [], key) == head + where;
    CountConcat(head, where, '?');
  }

  lemma SetStatementPlaceholders(table: string, body: string, key: string)
    requires Count("UPDATE " + table + " SET ", '?') == 0
    requires Count(" WHERE " + key + " = ?", '?') == 1
    ensures Count("UPDATE " + table + " SET " + body + " WHERE " + key + " = ?", '?') == Count(body, '?') + 1
  {
    var head := "UPDATE " + table + " SET ";
    var where := " WHERE " + key + " = ?";
    AppendAssoc(head + body + " WHERE ", key, " = ?");
    AppendAssoc(head + body, " WHERE ", key);
    AppendAssoc(head + body, " WHERE " + key, " = ?");
    CountConcat(head, body, '?');
    CountConcat(head + body, where, '?');
  }

  /** The slice removes exactly the trailing `, `, or cuts into `SET` when nothing was appended. */
  lemma SlicedText(table: string, slots: seq<Slot>, key: string)
    ensures SliceDropLast("UPDATE " + table + " SET " + Appended(slots), 2) + " WHERE " + key + " = ?"
      == Statement(table, Columns(Present(slots)), key)
  {
    AppendedIsAppendedColumns(slots);
    var head := "UPDATE " + table + " SET ";
    var cs := Columns(Present(slots));
    if |cs| == 0 {
      assert SliceDropLast(head, 2) == "UPDATE " + table + " SE";
    } else {
      AppendedColumnsIsTrailingJoin(cs);
      var j := Join(Assignments(cs), ", ");
      assert head + Appended(slots) == (head + j) + ", ";
      assert SliceDropLast((head + j) + ", ", 2) == head + j;
    }
  }

  /** Without `?` in the names, the text has exactly one placeholder per parameter. */
  lemma BuildAligned(table: string, slots: seq<Slot>, key: string, keyValue: Value)
    requires NoPlaceholders(table, slots, key)
    ensures Count(Build(table, slots, key, keyValue).sql, '?') == |Build(table, slots, key, keyValue).params|
  {
    PresentPlaceholders(table, slots, key);
  }

  lemma PresentPlaceholders(table: string, slots: seq<Slot>, key: string)
    ensures NoPlaceholders(table, slots, key) ==>
      Count(Statement(table, Columns(Present(slots)), key), '?') == |Present(slots)| + 1
  {
    if !NoPlaceholders(table, slots, key) { return; }
    var cs := Columns(Present(slots));
    forall i | 0 <= i < |cs|
      ensures '?' !in cs[i]
    {
      PresentMembers(slots);
      assert Present(slots)[i] in Present(slots);
    }
    StatementPlaceholders(table, cs, key);
  }

  /**
   * The statement a handler sends, as written: accumulate, slice off the last
   * two characters, append the match on `key`, push `keyValue` last.
   */
  function Build(table: string, slots: seq<Slot>, key: string, keyValue: Value): (q: Query)
    ensures q.params == Bound(Present(slots)) + [keyValue]
    ensures q.sql == Statement(table, Columns(Present(slots)), key)
  {
    SlicedText(table, slots, key);
    PushedIsPresentBound(slots);
    Query(SliceDropLast("UPDATE " + table + " SET " + Appended(slots), 2) + " WHERE " + key + " = ?",
          Pushed(slots) + [keyValue])
  }

  /**
   * The corrected builder: refuses an update with no supplied field instead
   * of sending the malformed text.
   */
  function BuildChecked(table: string, slots: seq<Slot>, key: string, keyValue: Value): (r: Checked)
    ensures r.NoFieldsSupplied? <==> forall i :: 0 <= i < |slots| ==> !slots[i].present
    ensures r.Issued? ==> "UPDATE " + table + " SET " <= r.query.sql
    ensures r.Issued? ==> |r.query.params| >= 2
    ensures r.Issued? ==> r.query.params[|r.query.params| - 1] == keyValue
    ensures r.Issued? ==> r.query == Build(table, slots, key, keyValue)
  {
    NoneSupplied(slots);
    if |Present(slots)| == 0 then NoFieldsSupplied
    else
      var q := Build(table, slots, key, keyValue);
      WellFormedPrefix(table, Columns(Present(slots)), key);
      Issued(q)
  }

  lemma NoneSupplied(slots: seq<Slot>)
    ensures |Present(slots)| == 0 <==> forall i :: 0 <= i < |slots| ==> !slots[i].present
  {
    if |Present(slots)| == 0 {
      forall i | 0 <= i < |slots| ensures !slots[i].present {
        PresentMembers(slots);
        assert slots[i] in slots;
      }
    } else {
      PresentMembers(slots);
      assert Present(slots)[0] in Present(slots);
    }
  }

  lemma WellFormedPrefix(table: string, columns: seq<string>, key: string)
    requires |columns| > 0
    ensures "UPDATE " + table + " SET " <= Statement(table, columns, key)
  {
    var head := "UPDATE " + table + " SET ";
    var rest := Join(Assignments(columns), ", ") + " WHERE " + key + " = ?";
    assert Statement(table, columns, key) == head + rest;
  }

  /** With no supplied field the as-written text is not an `UPDATE … SET` statement. */
  lemma EmptyUpdateIsMalformed(table: string, slots: seq<Slot>, key: string, keyValue: Value)
    requires forall i :: 0 <= i < |slots| ==> !slots[i].present
    ensures Build(table, slots, key, keyValue).sql == "UPDATE " + table + " SE WHERE " + key + " = ?"
    ensures Build(table, slots, key, keyValue).params == [keyValue]
    ensures !("UPDATE " + table + " SET " <= Build(table, slots, key, keyValue).sql)
  {
    NoneSupplied(slots);
    assert Columns(Present(slots)) == [];
    SeIsNotSet(table, key);
  }

  /** `SE WHERE` differs from `SET ` at the fourth character after the table name. */
  lemma SeIsNotSet(table: string, key: string)
    ensures !("UPDATE " + table + " SET " <= "UPDATE " + table + " SE WHERE " + key + " = ?")
  {
    var n := |"UPDATE " + table|;
    var head := "UPDATE " + table;
    var sql := "UPDATE " + table + " SE WHERE " + key + " = ?";
    assert sql == head + (" SE WHERE " + key + " = ?");
    assert sql[n + 3] == ' ';
    assert (head + " SET ")[n + 3] == 'T';
  }

  /**
   * When every slot binds the value of its own field (`field` maps a column
   * to the request's value for it), each placeholder is bound to the value of
   * the column it stands for.
   */
  lemma {:induction false} OwnValuesBound(table: string, slots: seq<Slot>, key: string, keyValue: Value, field: string -> Value)
    requires forall i :: 0 <= i < |slots| ==> slots[i].bound == field(slots[i].column)
    ensures var q := Build(table, slots, key, keyValue);
      forall i :: 0 <= i < |Present(slots)| ==> q.params[i] == field(Columns(Present(slots))[i])
  {
    var ps := Present(slots);
    forall i | 0 <= i < |ps|
      ensures ps[i].bound == field(ps[i].column)
    {
      PresentMembers(slots);
      assert ps[i] in ps;
    }
  }

  /** The column a slot contributes, if its guard holds. */
  function ColumnIf(s: Slot): seq<string>
  {
    if s.present then [s.column] else []
  }

  /** The value a slot pushes, if its guard holds. */
  function ValueIf(s: Slot): seq<Value>
  {
    if s.present then [s.bound] else []
  }

  lemma PresentCons(s: Slot, rest: seq<Slot>)
    ensures Columns(Present([s] + rest)) == ColumnIf(s) + Columns(Present(rest))
    ensures Bound(Present([s] + rest)) == ValueIf(s) + Bound(Present(rest))
  {
    assert ([s] + rest)[1..] == rest;
    assert Present([s] + rest) == (if s.present then [s] else []) + Present(rest);
  }

  lemma PresentFour(a: Slot, b: Slot, c: Slot, d: Slot)
    ensures Columns(Present([a, b, c, d])) == ColumnIf(a) + ColumnIf(b) + ColumnIf(c) + ColumnIf(d)
    ensures Bound(Present([a, b, c, d])) == ValueIf(a) + ValueIf(b) + ValueIf(c) + ValueIf(d)
  {
    var t := [b, c, d];
    PresentThree(b, c, d);
    assert [a, b, c, d] == [a] + t;
    PresentCons(a, t);
    AppendAssoc(ColumnIf(a), ColumnIf(b) + ColumnIf(c), ColumnIf(d));
    AppendAssoc(ColumnIf(a), ColumnIf(b), ColumnIf(c));
    AppendAssoc(ValueIf(a), ValueIf(b) + ValueIf(c), ValueIf(d));
    AppendAssoc(ValueIf(a), ValueIf(b), ValueIf(c));
  }

  lemma PresentThree(a: Slot, b: Slot, c: Slot)
    ensures Columns(Present([a, b, c])) == ColumnIf(a) + ColumnIf(b) + ColumnIf(c)
    ensures Bound(Present([a, b, c])) == ValueIf(a) + ValueIf(b) + ValueIf(c)
  {
    var t := [b, c];
    PresentTwo(b, c);
    assert [a, b, c] == [a] + t;
    PresentCons(a, t);
    AppendAssoc(ColumnIf(a), ColumnIf(b), ColumnIf(c));
    AppendAssoc(ValueIf(a), ValueIf(b), ValueIf(c));
  }

  lemma PresentTwo(a: Slot, b: Slot)
    ensures Columns(Present([a, b])) == ColumnIf(a) + ColumnIf(b)
    ensures Bound(Present([a, b])) == ValueIf(a) + ValueIf(b)
  {
    var t := [b];
    PresentOne(b);
    assert [a, b] == [a] + t;
    PresentCons(a, t);
  }

  lemma AppendAssoc<T>(x: seq<T>, y: seq<T>, z: seq<T>)
    ensures x + (y + z) == x + y + z
  {
  }

  lemma PresentOne(a: Slot)
    ensures Columns(Present([a])) == ColumnIf(a)
    ensures Bound(Present([a])) == ValueIf(a)
  {
    assert [a][1..] == [];
  }

  lemma NoPlaceholdersThree(table: string, a: Slot, b: Slot, c: Slot, key: string)
    requires '?' !in table && '?' !in key
    requires '?' !in a.column && '?' !in b.column && '?' !in c.column
    ensures NoPlaceholders(table, [a, b, c], key)
  {
  }

  lemma NoPlaceholdersFour(table: string, a: Slot, b: Slot, c: Slot, d: Slot, key: string)
    requires '?' !in table && '?' !in key
    requires '?' !in a.column && '?' !in b.column && '?' !in c.column && '?' !in d.column
    ensures NoPlaceholders(table, [a, b, c, d], key)
  {
  }

  /** The first assigned column opens the `SET` list. */
  lemma StatementFirstColumn(table: string, column: string, rest: seq<string>, key: string)
    ensures "UPDATE " + table + " SET " + Assignment(column) <= Statement(table, [column] + rest, key)
  {
    var cs := [column] + rest;
    var a := Assignments(cs);
    var head := "UPDATE " + table + " SET ";
    var tail := if |a| == 1 then "" else ", " + Join(a[1..], ", ");
    assert Join(a, ", ") == a[0] + tail;
    assert Statement(table, cs, key) == head + a[0] + (tail + " WHERE " + key + " = ?");
  }
}
