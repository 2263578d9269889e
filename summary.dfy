/**
  The row layout of `write_summary_csv`: a fixed three-column header, then
  one row per entry of the average-price dictionary, in the dictionary's
  order, with the key pair split into its two columns. Cells are kept as
  values; how the CSV writer quotes text and prints numbers is not modelled.
 */
module Summary {
  import opened Wrappers
  import opened Dicts
  import opened Listings

  /** A cell of the output file: a text field or a number. */
  datatype Cell = Text(text: string) | Number(number: real)

  type Row = seq<Cell>

  /** The field names the writer puts on the first line, in order. */
  const Header: Row := [Text("neighbourhood_group"), Text("room_type"), Text("average_price")]

  /** The row written for key `k` with average `avg`. */
  function DataRow(k: Key, avg: real): (row: Row) {
    [Text(k.0), Text(k.1), Number(avg)]
  }

  /** `rows` is the header followed by one row per entry of `d`, in `d`'s order. */
  ghost predicate Lays(d: OrderedDict<Key, real>, rows: seq<Row>) {
    && |rows| == |d.order| + 1
    && rows[0] == Header
    && forall i :: 0 <= i < |d.order| ==>
         d.order[i] in d.values && rows[i + 1] == DataRow(d.order[i], d.values[d.order[i]])
  }

  /**
    The rows `write_summary_csv` hands to the CSV writer: the header, then one
    row per dictionary entry. There are exactly as many data rows as keys.
   */
  method SummaryRows(d: OrderedDict<Key, real>) returns (rows: seq<Row>)
    requires d.Valid()
    ensures Lays(d, rows)
    ensures |rows| == |d.values| + 1
  {
    rows := [Header];
    var i := 0;
    while i < |d.order|
      invariant 0 <= i <= |d.order|
      invariant |rows| == i + 1 && rows[0] == Header
      invariant forall t :: 0 <= t < i ==> rows[t + 1] == DataRow(d.order[t], d.values[d.order[t]])
    {
      var key := d.order[i];
      rows := rows + [DataRow(key, d.values[key])];
      i := i + 1;
    }
    DistinctLength(d.order, d.values.Keys);
  }

  /**
    Reading the file back: the first row must be the header, and every
    further row a (group, room type, average) triple whose key has not been
    seen before.
   */
  function ReadSummary(rows: seq<Row>): (d: Option<OrderedDict<Key, real>>) {
    if |rows| == 0 || rows[0] != Header then None else ReadDataRows(rows[1..])
  }

  /** The data rows read back into a dictionary, keeping their order. */
  function ReadDataRows(rows: seq<Row>): (d: Option<OrderedDict<Key, real>>)
    ensures d.Some? ==> d.value.Valid() && |d.value.order| == |rows|
  {
    if rows == [] then Some(OrderedDict([], map[]))
    else match ReadDataRows(rows[..|rows| - 1])
      case None => None
      case Some(prev) =>
        var row := rows[|rows| - 1];
        if |row| == 3 && row[0].Text? && row[1].Text? && row[2].Number?
           && (row[0].text, row[1].text) !in prev.values
        then
          var k := (row[0].text, row[1].text);
          assert forall t :: 0 <= t < |prev.order| ==> prev.order[t] != k;
          Some(OrderedDict(prev.order + [k], prev.values[k := row[2].number]))
        else None
  }

  /** The first `n` entries of `d`, as the dictionary they form on their own. */
  ghost function Take(d: OrderedDict<Key, real>, n: nat): (prefix: OrderedDict<Key, real>)
    requires d.Valid() && n <= |d.order|
  {
    OrderedDict(d.order[..n], map k | k in d.order[..n] :: d.values[k])
  }

  /**
    Reading back what the writer lays out gives the dictionary it was given:
    the header is recognised and each key comes back once, with its average.
   */
  lemma ReadBack(d: OrderedDict<Key, real>, rows: seq<Row>)
    requires d.Valid() && Lays(d, rows)
    ensures ReadSummary(rows) == Some(d)
  {
    ReadBackPrefix(d, rows, |d.order|);
    assert rows[1..][..|d.order|] == rows[1..];
    assert d.order[..|d.order|] == d.order;
    assert Take(d, |d.order|).values == d.values;
  }

  /** Reading the first `n` data rows gives the first `n` entries. */
  lemma {:induction false} ReadBackPrefix(d: OrderedDict<Key, real>, rows: seq<Row>, n: nat)
    requires d.Valid() && Lays(d, rows) && n <= |d.order|
    ensures ReadDataRows(rows[1..][..n]) == Some(Take(d, n))
  {
    if n > 0 {
      ReadBackPrefix(d, rows, n - 1);
      var part := rows[1..][..n];
      assert part[..|part| - 1] == rows[1..][..n - 1];
      var k := d.order[n - 1];
      assert part[|part| - 1] == DataRow(k, d.values[k]);
      TakeOneMore(d, n);
    } else {
      assert rows[1..][..0] == [];
      assert Take(d, 0).values == map[];
    }
  }

  /** The first `n` entries are the first `n - 1` plus the `n`-th, whose key is new. */
  lemma TakeOneMore(d: OrderedDict<Key, real>, n: nat)
    requires d.Valid() && 0 < n <= |d.order|
    ensures d.order[n - 1] !in Take(d, n - 1).values
    ensures Take(d, n) == OrderedDict(Take(d, n - 1).order + [d.order[n - 1]],
                                      Take(d, n - 1).values[d.order[n - 1] := d.values[d.order[n - 1]]])
  {
    var k := d.order[n - 1];
    assert k !in d.order[..n - 1];
    assert d.order[..n] == d.order[..n - 1] + [k];
    assert Take(d, n).values == Take(d, n - 1).values[k := d.values[k]];
  }
}
