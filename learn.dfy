/**
 * Learn mode: the list of tables (src/App.tsx:35-51) and the ten rows shown
 * for one table (src/App.tsx:53-69). Both are fixed enumerations.
 */
module Learn {

  /** `Array.from({ length: 8 }, (_, i) => i + 2)`: the tables offered in Learn mode. */
  function TableList(): (tables: seq<int>)
    ensures tables == [2, 3, 4, 5, 6, 7, 8, 9]
  {
    seq(8, i => i + 2)
  }

  /** The tables are listed in strictly ascending order, and a table is listed exactly when it lies in 2..9. */
  lemma TableListOrderAndRange()
    ensures forall j, k :: 0 <= j < k < |TableList()| ==> TableList()[j] < TableList()[k]
    ensures forall t :: t in TableList() <==> 2 <= t <= 9
  {
  }

  /** One line `{n} × {i} = {n * i}` of a table. */
  datatype Row = Row(table: int, factor: int, product: int)

  /**
   * `Array.from({ length: 10 }, (_, i) => i + 1)` mapped to rows of table n:
   * ten correct equations, the k-th with factor k + 1.
   */
  function Rows(n: int): (rows: seq<Row>)
    ensures |rows| == 10
    ensures forall k :: 0 <= k < |rows| ==> rows[k].table == n && rows[k].factor == k + 1
    ensures forall k :: 0 <= k < |rows| ==> rows[k].product == rows[k].table * rows[k].factor
  {
    seq(10, i => Row(n, i + 1, n * (i + 1)))
  }

  /**
   * The rows of table n are exactly the equations n × i for i in 1..10: each
   * appears once, in ascending order of i, and no other row appears.
   */
  lemma RowsExactly(n: int)
    ensures forall j, k :: 0 <= j < k < |Rows(n)| ==> Rows(n)[j].factor < Rows(n)[k].factor
    ensures forall row: Row :: row in Rows(n) <==> row.table == n && 1 <= row.factor <= 10 && row.product == n * row.factor
  {
    var rows := Rows(n);
    forall row: Row | row.table == n && 1 <= row.factor <= 10 && row.product == n * row.factor
      ensures row in rows
    {
      assert rows[row.factor - 1] == row;
    }
  }

  /** For a positive table the products grow with the factor as well. */
  lemma RowsProductsAscending(n: int)
    requires n > 0
    ensures forall j, k :: 0 <= j < k < |Rows(n)| ==> Rows(n)[j].product < Rows(n)[k].product
  {
  }

  /** The rows shown for table 5: 5 × 1 = 5 up to 5 × 10 = 50. */
  lemma RowsOfFive()
    ensures Rows(5) == [Row(5, 1, 5), Row(5, 2, 10), Row(5, 3, 15), Row(5, 4, 20), Row(5, 5, 25),
                        Row(5, 6, 30), Row(5, 7, 35), Row(5, 8, 40), Row(5, 9, 45), Row(5, 10, 50)]
  {
  }
}
