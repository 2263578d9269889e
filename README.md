# Average listing price per neighbourhood group and room type

A Dafny model of the aggregation core of `discussion7.py`. This small program reads
short-term rental listings, averages their nightly price per
(neighbourhood group, room type), and writes the averages to a three-column
summary file.

What is modelled:

- **Reading one listing** (`Listings.Decode`). A listing is a row of the listings file:
  a map from column name to text. The aggregator looks up `neighbourhood_group`,
  then `room_type`, then `price`, and converts the price with `float`. A missing
  column raises `KeyError`, and a price `float` rejects raises `ValueError`. Both
  are values of the `Error` datatype. The conversion is a parameter
  `toFloat: string -> Option<real>`.
- **The aggregator** (`Aggregator.AveragePriceByGroupAndRoom`). It is split
  into the source's two loops:
  - `TallyListings` walks the listings and updates, in place, a price-total
    dictionary and a count dictionary. Each listing is handled by
    `AddListing`: a key seen for the first time is created at zero, then its
    total and count grow.
  - `DivideTotals` walks the keys and divides each total by its count.
  - The first listing that cannot be read stops the whole call, and no table
    is returned.
  - The loops are proved against closed forms over the decoded listings:
    - `KeySet`: the keys that occur.
    - `FirstSeen`: those keys in order of first occurrence.
    - `CountOf`: the number of listings per key.
    - `SumOf`: their price total per key.
- **Dictionary order.** Python dictionaries keep insertion order, so the
  result is an `OrderedDict` (`Dicts`): a key order plus a map. Its
  `Valid()` invariant says the order lists every key exactly once.
- **The summary writer's rows** (`Summary.SummaryRows`). It emits the header
  `neighbourhood_group`, `room_type`, `average_price`, then one row per
  dictionary entry in dictionary order, with the key pair split into two
  columns. `ReadSummary` is the model's own reader, the inverse of the writer's
  layout. It stands in for the unit test's read-back: unlike `csv.DictReader`,
  it keeps averages as numbers and rejects a repeated key. `ReadBack` proves
  that writing and then reading returns the same dictionary.
- **Scenarios** (`Scenarios`). These clients use only the contracts:
  - Three listings (Manhattan entire homes at 100 and 200, a Brooklyn private
    room at 50) give averages 150 and 50, then a header and two rows.
  - No listings give an empty table and a header-only file.
  - One unconvertible price fails the whole call.

The input listings are a `seq`, a value. The aggregator only reads it.

Arithmetic is exact (`real`). Sums and quotients are stated without IEEE-754
rounding.

Points where the model makes the code's own behaviour explicit:

- **Output order.** Python dictionaries keep insertion order, so rows come out
  in first-appearance order. The model states that order and proves it against
  an independent definition (`FirstIndex`, the position of a key's first
  listing).
- **Error kinds.** A missing column raises `KeyError`, and a price `float`
  rejects raises `ValueError`. The model keeps both, and `KeyError` names the
  first missing column in lookup order.
- **Header text.** The writer's docstring (discussion7.py:92) shows the header
  with spaces after the commas. The code's field names (discussion7.py:95)
  have none, and the model uses the code's.

## Model

| member | source | states |
|---|---|---|
| `Listings.Decode` | discussion7.py:61-64 | reading a listing succeeds exactly when all three columns exist and the price text converts; the entry's key is then (group, room type) and its price the converted value |
| `Listings.DecodeError` | discussion7.py:61-63 | a failing listing reports `KeyError` exactly when a column is missing, naming the first missing one in lookup order (group, room type, price); otherwise `ValueError` with the price text, which does not convert |
| `Listings.DecodeAllMeaning` | discussion7.py:60-63 | reading all listings succeeds exactly when every listing is readable, giving one entry per listing in order; otherwise the error is that of the first unreadable listing |
| `Listings.FirstSeen` | discussion7.py:65-67 | the keys in order of first sight contain no repetition and are exactly the keys that occur |
| `Listings.FirstIndex` | discussion7.py:60-65 | the position of a key's first listing: that listing has the key and no earlier one does |
| `Listings.FirstSeenOrder` | discussion7.py:65-70 | of any two keys in the insertion order, the one listed earlier has its first listing earlier, so the table iterates in first-appearance order |
| `Listings.AppendKeys` | discussion7.py:65-67 | a listing adds its key to the key set; a new key goes last in the insertion order, a known key leaves the order unchanged |
| `Listings.AppendTotals` | discussion7.py:68-69 | a listing adds one to its key's count and its price to its key's total, and nothing to any other key |
| `Listings.NoneOfKey` | discussion7.py:65-67 | a key that has not occurred has count 0 and total 0, the values it is created with |
| `Listings.CountPositiveIffOccurs` | discussion7.py:65-71 | a key's count is positive exactly when the key occurs, so no key in the tables is divided by zero |
| `Listings.ConcatTotals` | discussion7.py:60-69 | counts and totals over two consecutive runs of listings add up |
| `Listings.ReorderedKeys` | discussion7.py:60-64 | reordering the listings leaves the set of keys unchanged |
| `Listings.ReorderedTotals` | discussion7.py:60-69 | reordering the listings leaves every key's count and total unchanged, so the averages do not depend on input order |
| `Listings.SingleListing` | discussion7.py:68-71 | a key carried by exactly one listing has count 1 and average equal to that listing's price |
| `Listings.TotalWithinBounds` | discussion7.py:68-69 | if every price of a key lies in [lo, hi], its total lies between count·lo and count·hi |
| `Listings.AverageWithinBounds` | discussion7.py:68-71 | a key's average lies between the lowest and the highest price of its listings |
| `Listings.KeysAreListingPairs` | discussion7.py:60-64 | the keys are exactly the (neighbourhood group, room type) pairs of the listings: none missing, none extra |
| `Aggregator.AveragePriceByGroupAndRoom` | discussion7.py:42-72 | fails exactly when some listing is unreadable, with the first one's error and no table; otherwise it returns a valid ordered table whose keys are the listings' pairs in first-seen order, each mapped to its price total divided by its count (at least 1) |
| `Aggregator.TallyListings` | discussion7.py:57-69 | fails as above; otherwise the insertion order, totals and counts equal `FirstSeen`, `SumOf` and `CountOf` of the listings, with every count at least 1 |
| `Aggregator.AddListing` | discussion7.py:65-69 | creating a new key at zero and then adding the price and one keeps the tables equal to the closed forms of the listings read so far plus this one |
| `Aggregator.DivideTotals` | discussion7.py:70-71 | given counts of at least 1 for every key, the result has exactly the listed keys, each mapped to its total divided by its count |
| `Aggregator.StepFails` | discussion7.py:60-63 | an unreadable listing after a readable prefix makes the whole call fail with that listing's error |
| `Aggregator.FailureStops` | discussion7.py:60-63 | once a prefix of the listings fails, the whole sequence fails with the same error, whatever follows |
| `Summary.SummaryRows` | discussion7.py:94-100 | the rows are the header followed by one row (group, room type, average) per entry, in dictionary order, so there is one more row than there are keys |
| `Summary.ReadDataRows` | discussion7.py:94-100 | the model's reader of the written data rows: rows read back form a valid dictionary with exactly one key per row |
| `Summary.ReadBack` | discussion7.py:94-100 | the writer's layout has an inverse: reading back the written rows recognises the header and returns the same dictionary: every key once, with its average, in order |

## Left out

- `load_listings` is not part of this model. It covers opening the file, joining the path and `csv.DictReader`, which is file I/O plus a library parser. The model takes the listings as a sequence of column-to-text maps.
- Text-to-float conversion is left out. Python's `float` is the parameter `toFloat`, so its accepted syntax, `nan` and `inf` are not modelled.
- IEEE-754 rounding is left out. Prices, totals and averages are exact `real` numbers.
- A row shorter than the header is left out. `csv.DictReader` fills the missing fields with `None`, and `float(None)` raises `TypeError`. A listing here maps columns to text only.
- The CSV writer's quoting, its text form of numbers, and the file write (`open`, `csv.DictWriter`) are left out. Cells are kept as text and number values, and I/O errors are not modelled.
- The unit tests and `main` are left out. They depend on a dataset file and the test runner, including its expected averages and its 18 rows.
- Python lists are mutable and can be aliased, but the listings here are an immutable `seq`. The aggregator only reads its input, so nothing observable is lost.
