/**
 * The two-column catalog menu: the header row is dropped, the remaining
 * rows are split into a left and a right column of equal length, and each
 * pair of rows becomes one line of two "<id>. <name>" cells.
 */
module CatalogTable {
  import opened Wrappers

  /** One catalog row: its cells, the id first and the name second. */
  type Row = seq<string>

  /** The filler the right column receives when the item count is odd. */
  const Padding: Row := ["", ""]

  /** The exception raised when a row is too short for the cell it is asked for. */
  datatype TableError = IndexError

  /** TableCreator: the whole sheet as given, and the items below its header row. */
  datatype TableCreator = TableCreator(dataList: seq<Row>, dataItems: seq<Row>)

  /** TableCreator.__init__: keeps the sheet and drops its first (header) row from the items. */
  function NewTableCreator(dataList: seq<Row>): (t: TableCreator)
    ensures t.dataList == dataList
    ensures |dataList| <= 1 ==> t.dataItems == []
    ensures |dataList| >= 1 ==> [dataList[0]] + t.dataItems == dataList
  {
    TableCreator(dataList, if |dataList| == 0 then [] else dataList[1..])
  }

  /**
   * split_data: the first (n + 1) / 2 items form the left column and the
   * rest the right one, which gets a padding row when it is the shorter.
   * Reading the columns one after the other gives back the items, plus the
   * padding row exactly when n is odd; both columns have ceil(n / 2) rows.
   */
  function SplitData(t: TableCreator): (columns: (seq<Row>, seq<Row>))
    ensures var n := |t.dataItems|;
      && |columns.0| == |columns.1| == (n + 1) / 2
      && columns.0 + columns.1 == t.dataItems + (if n % 2 == 1 then [Padding] else [])
    ensures var n := |t.dataItems|;
      0 <= |columns.0| - (n - |columns.0|) <= 1
  {
    var half := (|t.dataItems| + 1) / 2;
    var column1 := t.dataItems[..half];
    var column2 := t.dataItems[half..];
    if |column1| > |column2| then (column1, column2 + [Padding]) else (column1, column2)
  }

  /** The "<id>. <name>" text of a row. */
  function Label(row: Row): string
    requires |row| >= 2
  {
    row[0] + ". " + row[1]
  }

  /**
   * Whether a left row and a right row can be shown without an IndexError:
   * the left one needs two cells; the right one needs its first cell, and
   * its second only when the first is non-empty (`and` stops at a false
   * left operand).
   */
  predicate RowsFit(left: Row, right: Row) {
    |left| >= 2 && |right| >= 1 && (right[0] != "" ==> |right| >= 2)
  }

  /** The right cell: the label when both cells are non-empty, otherwise blank. */
  function RightCell(row: Row): string
    requires |row| >= 1 && (row[0] != "" ==> |row| >= 2)
  {
    if row[0] != "" && row[1] != "" then Label(row) else ""
  }

  /**
   * Row i of the left column is item i; row i of the right column is item
   * i + ceil(n / 2), or the padding row (whose right cell is blank) past
   * the end of the items.
   */
  lemma ColumnRows(t: TableCreator, i: int)
    requires 0 <= i < (|t.dataItems| + 1) / 2
    ensures var (column1, column2) := SplitData(t);
      var n := |t.dataItems|;
      var half := (n + 1) / 2;
      && column1[i] == t.dataItems[i]
      && column2[i] == (if half + i < n then t.dataItems[half + i] else Padding)
  {
    var (column1, column2) := SplitData(t);
    var n := |t.dataItems|;
    var half := (n + 1) / 2;
    var all := t.dataItems + (if n % 2 == 1 then [Padding] else []);
    assert column1[i] == (column1 + column2)[i] == all[i];
    assert column2[i] == (column1 + column2)[half + i] == all[half + i];
  }

  /**
   * create_main_table, without the rendering settings: one line per pair of
   * rows zipped from the two columns, or IndexError when some row is too
   * short for the cells the line reads.
   */
  method CreateMainTable(t: TableCreator) returns (r: Result<seq<(string, string)>, TableError>)
    ensures var (column1, column2) := SplitData(t);
      r.Success? <==> forall i :: 0 <= i < |column1| ==> RowsFit(column1[i], column2[i])
    ensures var (column1, column2) := SplitData(t);
      r.Success? ==>
        && |r.value| == |column1|
        && forall i :: 0 <= i < |column1| ==>
             RowsFit(column1[i], column2[i]) && r.value[i] == (Label(column1[i]), RightCell(column2[i]))
  {
    var (column1, column2) := SplitData(t);
    var count := if |column1| < |column2| then |column1| else |column2|;
    var lines: seq<(string, string)> := [];
    var i := 0;
    while i < count
      invariant 0 <= i <= count == |column1| == |column2|
      invariant |lines| == i
      invariant forall k :: 0 <= k < i ==>
        RowsFit(column1[k], column2[k]) && lines[k] == (Label(column1[k]), RightCell(column2[k]))
    {
      var row1, row2 := column1[i], column2[i];
      if |row1| < 2 {
        return Failure(IndexError);
      }
      var left := row1[0] + ". " + row1[1];
      if |row2| == 0 {
        return Failure(IndexError);
      }
      var right := "";
      if row2[0] != "" {
        if |row2| < 2 {
          return Failure(IndexError);
        }
        if row2[1] != "" {
          right := row2[0] + ". " + row2[1];
        }
      }
      lines := lines + [(left, right)];
      i := i + 1;
    }
    r := Success(lines);
  }

  /**
   * The table in terms of the items: ceil(n / 2) lines, line i showing item
   * i on the left and item i + ceil(n / 2) on the right, with a blank right
   * cell on the padding line of an odd count.
   */
  lemma MainTableLines(t: TableCreator, lines: seq<(string, string)>)
    requires var (column1, column2) := SplitData(t);
      && |lines| == |column1|
      && forall i :: 0 <= i < |column1| ==>
           RowsFit(column1[i], column2[i]) && lines[i] == (Label(column1[i]), RightCell(column2[i]))
    ensures var n := |t.dataItems|;
      var half := (n + 1) / 2;
      && |lines| == half
      && forall i :: 0 <= i < half ==>
           && |t.dataItems[i]| >= 2
           && lines[i].0 == Label(t.dataItems[i])
           && lines[i].1 == (if half + i < n then RightCell(t.dataItems[half + i]) else "")
  {
    var n := |t.dataItems|;
    var half := (n + 1) / 2;
    forall i | 0 <= i < half
      ensures && |t.dataItems[i]| >= 2
              && lines[i].0 == Label(t.dataItems[i])
              && lines[i].1 == (if half + i < n then RightCell(t.dataItems[half + i]) else "")
    {
      ColumnRows(t, i);
    }
  }
}
