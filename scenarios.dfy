/**
  Clients of the aggregator and the writer that use nothing but their
  contracts: the contracts are strong enough to fix the concrete outcome.
 */
module Scenarios {
  import opened Wrappers
  import opened Dicts
  import opened Listings
  import opened Aggregator
  import opened Summary

  /** A stand-in for `float` that knows three price texts. */
  function ToyFloat(s: string): (f: Option<real>) {
    if s == "100" then Some(100.0)
    else if s == "200" then Some(200.0)
    else if s == "50" then Some(50.0)
    else None
  }

  function Listing(group: string, room: string, price: string): (r: Record) {
    map[GroupColumn := group, RoomColumn := room, PriceColumn := price]
  }

  const Manhattan: Key := ("Manhattan", "Entire home/apt")
  const Brooklyn: Key := ("Brooklyn", "Private room")

  /** Two Manhattan entire homes at 100 and 200, one Brooklyn private room at 50. */
  function ThreeListings(): (ls: seq<Record>) {
    [Listing(Manhattan.0, Manhattan.1, "100"), Listing(Manhattan.0, Manhattan.1, "200"),
     Listing(Brooklyn.0, Brooklyn.1, "50")]
  }

  lemma ThreeListingsRead()
    ensures DecodeAll(ThreeListings(), ToyFloat) ==
      Success([Entry(Manhattan, 100.0), Entry(Manhattan, 200.0), Entry(Brooklyn, 50.0)])
  {
    var ls := ThreeListings();
    var es := [Entry(Manhattan, 100.0), Entry(Manhattan, 200.0), Entry(Brooklyn, 50.0)];
    assert Decode(ls[0], ToyFloat) == Success(es[0]);
    assert Decode(ls[1], ToyFloat) == Success(es[1]);
    assert Decode(ls[2], ToyFloat) == Success(es[2]);
    assert ls[..0] == [] && ls[..3] == ls;
    StepSucceeds(ls, 0, ToyFloat, []);
    assert [] + [es[0]] == [es[0]];
    StepSucceeds(ls, 1, ToyFloat, [es[0]]);
    assert [es[0]] + [es[1]] == [es[0], es[1]];
    StepSucceeds(ls, 2, ToyFloat, [es[0], es[1]]);
    assert [es[0], es[1]] + [es[2]] == es;
  }

  lemma ThreeListingsTotals()
    ensures var es := [Entry(Manhattan, 100.0), Entry(Manhattan, 200.0), Entry(Brooklyn, 50.0)];
      && FirstSeen(es) == [Manhattan, Brooklyn]
      && KeySet(es) == {Manhattan, Brooklyn}
      && CountOf(Manhattan, es) == 2 && SumOf(Manhattan, es) == 300.0
      && CountOf(Brooklyn, es) == 1 && SumOf(Brooklyn, es) == 50.0
  {
    var es := [Entry(Manhattan, 100.0), Entry(Manhattan, 200.0), Entry(Brooklyn, 50.0)];
    AppendKeys([], es[0]);
    AppendKeys([es[0]], es[1]);
    AppendKeys([es[0], es[1]], es[2]);
    AppendTotals([], es[0], Manhattan);
    AppendTotals([es[0]], es[1], Manhattan);
    AppendTotals([es[0], es[1]], es[2], Manhattan);
    AppendTotals([], es[0], Brooklyn);
    AppendTotals([es[0]], es[1], Brooklyn);
    AppendTotals([es[0], es[1]], es[2], Brooklyn);
    assert [] + [es[0]] == [es[0]];
    assert [es[0]] + [es[1]] == [es[0], es[1]];
    assert [es[0], es[1]] + [es[2]] == es;
  }

  /** The three listings above give averages 150 and 50, in that order. */
  method TwoCategories() returns (d: OrderedDict<Key, real>)
    ensures d == OrderedDict([Manhattan, Brooklyn], map[Manhattan := 150.0, Brooklyn := 50.0])
  {
    ThreeListingsRead();
    ThreeListingsTotals();
    var r := AveragePriceByGroupAndRoom(ThreeListings(), ToyFloat);
    d := r.value;
    assert d.values.Keys == {Manhattan, Brooklyn};
    assert d.values[Manhattan] == 150.0 && d.values[Brooklyn] == 50.0;
  }

  /** Their summary is a header and two rows, in the table's order. */
  method TwoCategoryRows() returns (rows: seq<Row>)
    ensures rows == [Header,
                     [Text("Manhattan"), Text("Entire home/apt"), Number(150.0)],
                     [Text("Brooklyn"), Text("Private room"), Number(50.0)]]
  {
    var d := TwoCategories();
    rows := SummaryRows(d);
    assert Manhattan != Brooklyn;
    assert d.order[0] == Manhattan && d.values[Manhattan] == 150.0;
    assert d.order[1] == Brooklyn && d.values[Brooklyn] == 50.0;
    assert rows[0 + 1] == DataRow(Manhattan, 150.0);
    assert rows[1 + 1] == DataRow(Brooklyn, 50.0);
  }

  /** No listings: an empty dictionary, and a file with the header alone. */
  method NoListings() {
    var r := AveragePriceByGroupAndRoom([], ToyFloat);
    assert r == Success(OrderedDict([], map[]));
    var rows := SummaryRows(r.value);
    assert rows == [Header];
  }

  /** One price that does not convert fails the whole call, whatever comes after it. */
  method BadPrice() {
    var ls := [Listing("Queens", "Shared room", "50"), Listing("Queens", "Shared room", "n/a"),
               map[GroupColumn := "Bronx"]];
    assert Decode(ls[0], ToyFloat) == Success(Entry(("Queens", "Shared room"), 50.0));
    assert Decode(ls[1], ToyFloat) == Failure(ValueError("n/a"));
    assert ls[..0] == [];
    StepSucceeds(ls, 0, ToyFloat, []);
    assert [] + [Entry(("Queens", "Shared room"), 50.0)] == [Entry(("Queens", "Shared room"), 50.0)];
    StepFails(ls, 1, ToyFloat, [Entry(("Queens", "Shared room"), 50.0)]);
    var r := AveragePriceByGroupAndRoom(ls, ToyFloat);
    assert r == Failure(ValueError("n/a"));
  }
}
