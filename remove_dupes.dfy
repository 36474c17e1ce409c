/** `remove_duplicates` of data/removedupes.py: keep the header row of a CSV
    table and the first occurrence of every later row.  Reading and writing
    the files is not modelled; the table is the sequence of parsed rows. */
module RemoveDupes {
  import opened Wrappers
  import opened Collections

  type Row = seq<string>

  /** What is written back: the header, then the distinct rows. */
  datatype Table = Table(header: Row, rows: seq<Row>)

  /** The output for an input table; `None` when there is no header row to
      read (`next(reader)` raises `StopIteration`). */
  function Deduped(input: seq<Row>): Option<Table> {
    if input == [] then None else Some(Table(input[0], Unique(input[1..])))
  }

  method RemoveDuplicates(input: seq<Row>) returns (output: Option<Table>)
    ensures output == Deduped(input)
  {
    if input == [] {
      return None;
    }
    var header := input[0];
    var body := input[1..];
    var seen: set<Row> := {};
    var uniqueRows: seq<Row> := [];
    var i := 0;
    while i < |body|
      invariant 0 <= i <= |body|
      invariant uniqueRows == Unique(body[..i])
      invariant seen == KeySet(body[..i], Id)
    {
      var row := body[i];
      assert body[..i + 1][..i] == body[..i];
      KeySetSnoc(body[..i], row, Id);
      assert body[..i] + [row] == body[..i + 1];
      if row !in seen {
        seen := seen + {row};
        uniqueRows := uniqueRows + [row];
      }
      i := i + 1;
    }
    assert body[..i] == body;
    return Some(Table(header, uniqueRows));
  }

  /** The header is kept as it is; every data row appears once, the rows are
      the same set as the input's, each output row is the first occurrence of
      that row, in input order, and nothing is added. */
  lemma DedupedMeaning(input: seq<Row>)
    requires input != []
    ensures var t := Deduped(input).value;
      var body := input[1..];
      && t.header == input[0]
      && (forall i, j :: 0 <= i < j < |t.rows| ==> t.rows[i] != t.rows[j])
      && (forall r :: r in t.rows <==> r in body)
      && |t.rows| <= |body|
      && |t.rows| == |FirstIndices(body, Id)|
      && (forall i :: 0 <= i < |t.rows| ==> FirstIndices(body, Id)[i] < |body| && t.rows[i] == body[FirstIndices(body, Id)[i]])
      && (forall i, j :: 0 <= i < j < |t.rows| ==> FirstIndices(body, Id)[i] < FirstIndices(body, Id)[j])
  {
    UniqueSpec(input[1..]);
    FirstIndicesExact(input[1..], Id);
  }

  /** A table without repeated rows is written back unchanged. */
  lemma DedupedOfDistinct(input: seq<Row>)
    requires input != []
    requires forall i, j :: 1 <= i < j < |input| ==> input[i] != input[j]
    ensures Deduped(input) == Some(Table(input[0], input[1..]))
  {
    UniqueOfDistinct(input[1..]);
  }

  /** Deduplicating the output again changes nothing. */
  lemma DedupedIdempotent(input: seq<Row>)
    requires input != []
    ensures var t := Deduped(input).value;
      Deduped([t.header] + t.rows) == Some(t)
  {
    var t := Deduped(input).value;
    UniqueSpec(input[1..]);
    assert ([t.header] + t.rows)[1..] == t.rows;
    UniqueOfDistinct(t.rows);
  }
}
