/** The last step of ParseXLSX (internal/parser/xlsx.go:50-65): row 1 names the columns, row 2 is the record. */
module XlsxRecord {
  import opened Strings
  import opened TextParser

  /** Column i gives the record its entry for `key`: no later column of that name has a value. */
  ghost predicate Decides(header: seq<string>, values: seq<string>, key: string, i: int) {
    && 0 <= i < |header| && i < |values| && NormalizeKey(header[i]) == key
    && forall j :: i < j < |header| && j < |values| ==> NormalizeKey(header[j]) != key
  }

  ghost predicate IsRecordOf(rec: Record, header: seq<string>, values: seq<string>) {
    && (forall key :: key in rec ==> key != "" && exists i :: Decides(header, values, key, i) && rec[key] == values[i])
    && forall i :: 0 <= i < |header| && i < |values| && NormalizeKey(header[i]) != "" ==> NormalizeKey(header[i]) in rec
  }

  function ColumnEntered(rec: Record, header: seq<string>, values: seq<string>, i: nat): Record
    requires i < |header|
  {
    var key := NormalizeKey(header[i]);
    if key == "" || i >= |values| then rec else rec[key := values[i]]
  }

  lemma DecidesLater(header: seq<string>, values: seq<string>, key: string, n: int, i: nat)
    requires i < |header| && Decides(header[..i], values, key, n)
    requires NormalizeKey(header[i]) != key || i >= |values|
    ensures Decides(header[..i + 1], values, key, n)
  {
    assert forall j :: 0 <= j < i ==> header[..i + 1][j] == header[..i][j];
    assert header[..i + 1][i] == header[i];
  }

  lemma ColumnRead(rec: Record, header: seq<string>, values: seq<string>, i: nat)
    requires i < |header| && IsRecordOf(rec, header[..i], values)
    ensures IsRecordOf(ColumnEntered(rec, header, values, i), header[..i + 1], values)
  {
    hide NormalizeKey;
    var next, column := ColumnEntered(rec, header, values, i), NormalizeKey(header[i]);
    assert header[..i + 1] == header[..i] + [header[i]];
    forall key | key in next
      ensures key != "" && exists n :: Decides(header[..i + 1], values, key, n) && next[key] == values[n]
    {
      if key == column && i < |values| {
        assert Decides(header[..i + 1], values, key, i);
      } else {
        var n :| Decides(header[..i], values, key, n) && rec[key] == values[n];
        DecidesLater(header, values, key, n, i);
      }
    }
  }

  method RecordOfRows(rows: seq<seq<string>>) returns (result: Option<Record>)
    ensures result.None? <==> |rows| < 2
    ensures result.Some? ==> IsRecordOf(result.value, rows[0], rows[1])
  {
    hide NormalizeKey, IsRecordOf;
    if |rows| < 2 {
      return None;
    }
    var header, data0 := rows[0], rows[1];
    var rec: Record := map[];
    NothingRead(data0);
    assert header[..0] == [];
    for i := 0 to |header|
      invariant IsRecordOf(rec, header[..i], data0)
    {
      ColumnRead(rec, header, data0, i);
      var key := NormalizeKey(header[i]);
      if key == "" {
        continue;
      }
      if i < |data0| {
        rec := rec[key := data0[i]];
      }
    }
    assert header[..|header|] == header;
    result := Some(rec);
  }

  lemma NothingRead(values: seq<string>)
    ensures IsRecordOf(map[], [], values)
  {
  }

  /** The record is determined: at most one column decides each entry. */
  lemma RecordIsDetermined(a: Record, b: Record, header: seq<string>, values: seq<string>)
    requires IsRecordOf(a, header, values) && IsRecordOf(b, header, values)
    ensures a == b
  {
    hide NormalizeKey;
    forall key | key in a
      ensures key in b && a[key] == b[key]
    {
      var i :| Decides(header, values, key, i) && a[key] == values[i];
      assert NormalizeKey(header[i]) in b;
      var j :| Decides(header, values, key, j) && b[key] == values[j];
    }
    forall key | key in b
      ensures key in a
    {
      var i :| Decides(header, values, key, i) && b[key] == values[i];
      assert NormalizeKey(header[i]) in a;
    }
  }
}
