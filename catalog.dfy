/**
 * The product catalogue as the pipeline sees it (backend/helpers.php):
 * products, the id lookup built before every resolution, the tag split of
 * database rows, and the category and brand aggregates.
 */
module Catalog {
  import opened Wrappers
  import opened Text

  /** A catalogue product; `brand`, `category` and `currency` may be missing from a record. */
  datatype Product = Product(
    id: int,
    name: string,
    description: string,
    brand: Option<string>,
    category: Option<string>,
    price: real,
    currency: Option<string>,
    stock: int,
    image: string,
    featured: bool,
    tags: seq<string>)

  /** The currency a product is priced in: `$product['currency'] ?? 'AUD'`. */
  function PriceCurrency(p: Product): string {
    p.currency.GetOr("AUD")
  }

  // ---------------------------------------------------------------------------
  // Tags of a database row: array_filter(array_map('trim', explode(',', tags)))
  // ---------------------------------------------------------------------------

  /** The strings array_filter() drops: the empty string and "0". */
  predicate Falsy(t: string) {
    t == "" || t == "0"
  }

  /** array_map('trim', $fields). */
  function TrimAll(fields: seq<string>): (r: seq<string>)
    ensures |r| == |fields| && forall k :: 0 <= k < |fields| ==> r[k] == Trim(fields[k])
  {
    seq(|fields|, k requires 0 <= k < |fields| => Trim(fields[k]))
  }

  /** array_filter($values): drops the falsy strings and keeps the rest in order. */
  function DropFalsy(values: seq<string>): (kept: seq<string>)
    ensures |kept| <= |values|
    ensures forall k :: 0 <= k < |kept| ==> !Falsy(kept[k])
  {
    if |values| == 0 then []
    else if Falsy(values[0]) then DropFalsy(values[1..])
    else [values[0]] + DropFalsy(values[1..])
  }

  /** Every value that is not falsy is kept, and nothing else is. */
  lemma {:induction false} DropFalsyMembership(values: seq<string>, t: string)
    ensures t in DropFalsy(values) <==> t in values && !Falsy(t)
  {
    if |values| > 0 {
      DropFalsyMembership(values[1..], t);
      assert values == [values[0]] + values[1..];
    }
  }

  /** A tag as it is kept: not falsy, and without blanks at either end. */
  predicate CleanTag(t: string) {
    !Falsy(t) && !IsBlank(t[0]) && !IsBlank(t[|t| - 1])
  }

  /**
   * The tags of a product row, `array_filter(array_map('trim', explode(',', tags)))`:
   * no tag is empty or "0", has blanks at either end, or holds a comma.
   */
  function SplitTags(raw: Option<string>): (tags: seq<string>)
    ensures forall k :: 0 <= k < |tags| ==> CleanTag(tags[k]) && ',' !in tags[k]
  {
    var fields := Explode(',', raw.GetOr(""));
    var trimmed := TrimAll(fields);
    var tags := DropFalsy(trimmed);
    forall k | 0 <= k < |tags| ensures CleanTag(tags[k]) && ',' !in tags[k] {
      KeptTagClean(fields, tags[k]);
    }
    tags
  }

  /** A kept tag is the trim of one comma-free field, and is neither falsy nor blank-ended. */
  lemma KeptTagClean(fields: seq<string>, t: string)
    requires forall i :: 0 <= i < |fields| ==> ',' !in fields[i]
    requires t in DropFalsy(TrimAll(fields))
    ensures CleanTag(t) && ',' !in t
  {
    var trimmed := TrimAll(fields);
    DropFalsyMembership(trimmed, t);
    var i :| 0 <= i < |trimmed| && trimmed[i] == t;
    TrimKeepsCharacters(fields[i]);
  }

  /** A field gives a tag exactly when its trimmed form is neither empty nor "0". */
  lemma KeptTagsMembership(fields: seq<string>, t: string)
    ensures t in DropFalsy(TrimAll(fields)) <==> !Falsy(t) && exists i :: 0 <= i < |fields| && Trim(fields[i]) == t
  {
    var trimmed := TrimAll(fields);
    DropFalsyMembership(trimmed, t);
    if t in trimmed {
      var i :| 0 <= i < |trimmed| && trimmed[i] == t;
      assert Trim(fields[i]) == t;
    }
    if exists i :: 0 <= i < |fields| && Trim(fields[i]) == t {
      var i :| 0 <= i < |fields| && Trim(fields[i]) == t;
      assert trimmed[i] == t;
    }
  }

  // ---------------------------------------------------------------------------
  // The id lookup: foreach ($products as $product) $lookup[$product['id']] = $product;
  // ---------------------------------------------------------------------------

  /** The lookup map after the foreach over the catalogue, later products overwriting earlier ones. */
  function Index(catalog: seq<Product>): (m: map<int, Product>)
    ensures |m| <= |catalog|
  {
    if |catalog| == 0 then map[]
    else Index(catalog[..|catalog| - 1])[catalog[|catalog| - 1].id := catalog[|catalog| - 1]]
  }

  /** The lookup's keys are exactly the ids in the catalogue. */
  lemma {:induction false} IndexKeys(catalog: seq<Product>, id: int)
    ensures id in Index(catalog) <==> exists k :: 0 <= k < |catalog| && catalog[k].id == id
  {
    if |catalog| > 0 {
      var init := catalog[..|catalog| - 1];
      IndexKeys(init, id);
      if exists k :: 0 <= k < |init| && init[k].id == id {
        var k :| 0 <= k < |init| && init[k].id == id;
        assert catalog[k].id == id;
      }
      if exists k :: 0 <= k < |catalog| && catalog[k].id == id {
        var k :| 0 <= k < |catalog| && catalog[k].id == id;
        if k < |init| {
          assert init[k].id == id;
        }
      }
    }
  }

  /** Where ids repeat, the lookup holds the last product with the id. */
  lemma {:induction false} IndexLastWins(catalog: seq<Product>, k: int)
    requires 0 <= k < |catalog|
    requires forall j :: k < j < |catalog| ==> catalog[j].id != catalog[k].id
    ensures catalog[k].id in Index(catalog) && Index(catalog)[catalog[k].id] == catalog[k]
  {
    if k < |catalog| - 1 {
      var init := catalog[..|catalog| - 1];
      assert init[k] == catalog[k];
      IndexLastWins(init, k);
    }
  }

  /** Every entry of the lookup is a catalogue product stored under its own id. */
  lemma {:induction false} IndexEntries(catalog: seq<Product>, id: int)
    requires id in Index(catalog)
    ensures Index(catalog)[id].id == id && Index(catalog)[id] in catalog
  {
    var init := catalog[..|catalog| - 1];
    if catalog[|catalog| - 1].id != id {
      IndexEntries(init, id);
      assert Index(catalog)[id] in init;
    }
  }

  /** The lookup as the loop in cartTotals, wishlistItems and compareItems builds it. */
  method BuildLookup(catalog: seq<Product>) returns (lookup: map<int, Product>)
    ensures lookup == Index(catalog)
  {
    lookup := map[];
    var i := 0;
    while i < |catalog|
      invariant 0 <= i <= |catalog|
      invariant lookup == Index(catalog[..i])
    {
      assert catalog[..i + 1][..i] == catalog[..i];
      lookup := lookup[catalog[i].id := catalog[i]];
      i := i + 1;
    }
    assert catalog[..i] == catalog;
  }

  // ---------------------------------------------------------------------------
  // availableCategories() / availableBrands()
  // ---------------------------------------------------------------------------

  /** One aggregate row: `['name' => $name, 'products' => $count]`. */
  datatype NameCount = NameCount(name: string, products: nat)

  /** The name a product is counted under: `trim((string)($product[...] ?? ''))`. */
  function Label(raw: Option<string>): string {
    Trim(raw.GetOr(""))
  }

  /** The trimmed category of every product, in catalogue order. */
  function CategoryNames(catalog: seq<Product>): (names: seq<string>)
    ensures |names| == |catalog| && forall k :: 0 <= k < |catalog| ==> names[k] == Label(catalog[k].category)
  {
    seq(|catalog|, k requires 0 <= k < |catalog| => Label(catalog[k].category))
  }

  /** The trimmed brand of every product, in catalogue order. */
  function BrandNames(catalog: seq<Product>): (names: seq<string>)
    ensures |names| == |catalog| && forall k :: 0 <= k < |catalog| ==> names[k] == Label(catalog[k].brand)
  {
    seq(|catalog|, k requires 0 <= k < |catalog| => Label(catalog[k].brand))
  }

  predicate StrictlyAscending(names: seq<string>) {
    forall i, j :: 0 <= i < j < |names| ==> Below(names[i], names[j])
  }

  function Names(rows: seq<NameCount>): (names: seq<string>)
    ensures |names| == |rows| && forall k :: 0 <= k < |rows| ==> names[k] == rows[k].name
  {
    seq(|rows|, k requires 0 <= k < |rows| => rows[k].name)
  }

  /**
   * What the aggregate promises over the trimmed names of the products: rows
   * sorted by name (ksort), exactly one per distinct non-empty name, each
   * with the number of products carrying that name.
   */
  predicate IsTally(rows: seq<NameCount>, names: seq<string>) {
    && StrictlyAscending(Names(rows))
    && (forall k :: 0 <= k < |rows| ==>
          rows[k].name != "" && rows[k].products >= 1 && rows[k].products == multiset(names)[rows[k].name])
    && (forall n :: n in names && n != "" ==> n in Names(rows))
  }

  /** Inserts a name into a sorted list: the insertion step of the key sort. */
  function InsertName(x: string, sorted: seq<string>): (r: seq<string>)
    requires StrictlyAscending(sorted) && x !in sorted
    ensures StrictlyAscending(r)
    ensures multiset(r) == multiset(sorted) + multiset{x}
  {
    if |sorted| == 0 then [x]
    else if Below(x, sorted[0]) then
      assert forall j :: 0 < j < |sorted| ==> Below(x, sorted[j]) by {
        forall j | 0 < j < |sorted| ensures Below(x, sorted[j]) {
          BelowTransitive(x, sorted[0], sorted[j]);
        }
      }
      [x] + sorted
    else
      BelowTotal(x, sorted[0]);
      var rest := InsertName(x, sorted[1..]);
      assert sorted == [sorted[0]] + sorted[1..];
      assert forall j :: 0 <= j < |rest| ==> Below(sorted[0], rest[j]) by {
        forall j | 0 <= j < |rest| ensures Below(sorted[0], rest[j]) {
          assert rest[j] in multiset(rest);
          assert rest[j] == x || rest[j] in multiset(sorted[1..]);
          if rest[j] != x {
            var m :| 0 <= m < |sorted[1..]| && sorted[1..][m] == rest[j];
            assert sorted[m + 1] == rest[j];
          }
        }
      }
      [sorted[0]] + rest
  }

  /** ksort on the collected keys: the same names, in ascending order. */
  function SortNames(names: seq<string>): (r: seq<string>)
    requires Distinct(names)
    ensures StrictlyAscending(r)
    ensures multiset(r) == multiset(names)
  {
    if |names| == 0 then []
    else
      var rest := SortNames(names[1..]);
      assert names == [names[0]] + names[1..];
      assert names[0] !in rest by {
        assert forall m :: 0 <= m < |names[1..]| ==> names[1..][m] != names[0];
        assert names[0] !in multiset(names[1..]);
        assert names[0] !in multiset(rest);
      }
      InsertName(names[0], rest)
  }

  /**
   * The state of the counting loop after the names `seen`: `counts` holds
   * each non-empty name seen with its number of occurrences, and `keys` the
   * same names once each, in first-seen order.
   */
  ghost predicate Counted(counts: map<string, nat>, keys: seq<string>, seen: seq<string>) {
    && Distinct(keys)
    && (forall n :: n in counts <==> n in keys)
    && (forall n :: n in counts ==> n != "" && counts[n] >= 1 && counts[n] == multiset(seen)[n])
    && (forall n :: n in seen && n != "" ==> n in counts)
  }

  /** One pass of the loop body: `$counts[$name] = ($counts[$name] ?? 0) + 1`, skipping empty names. */
  function Step(counts: map<string, nat>, keys: seq<string>, name: string): (map<string, nat>, seq<string>)
  {
    if name == "" then (counts, keys)
    else if name in counts then (counts[name := counts[name] + 1], keys)
    else (counts[name := 1], keys + [name])
  }

  lemma CountedStep(counts: map<string, nat>, keys: seq<string>, seen: seq<string>, name: string)
    requires Counted(counts, keys, seen)
    ensures Counted(Step(counts, keys, name).0, Step(counts, keys, name).1, seen + [name])
  {
    assert multiset(seen + [name]) == multiset(seen) + multiset{name};
    if name != "" && name !in counts {
      var keys' := keys + [name];
      assert forall i :: 0 <= i < |keys| ==> keys'[i] == keys[i];
      assert name !in multiset(seen);
    }
  }

  /** The counting loop of availableCategories/availableBrands. */
  method CountNames(names: seq<string>) returns (counts: map<string, nat>, keys: seq<string>)
    ensures Counted(counts, keys, names)
  {
    counts := map[];
    keys := [];
    var i := 0;
    while i < |names|
      invariant 0 <= i <= |names|
      invariant Counted(counts, keys, names[..i])
    {
      CountedStep(counts, keys, names[..i], names[i]);
      assert names[..i + 1] == names[..i] + [names[i]];
      counts, keys := Step(counts, keys, names[i]).0, Step(counts, keys, names[i]).1;
      i := i + 1;
    }
    assert names[..i] == names;
  }

  /** The rows array_map builds from the counts, in the order of the sorted keys. */
  function Rows(counts: map<string, nat>, sorted: seq<string>): (rows: seq<NameCount>)
    requires forall k :: 0 <= k < |sorted| ==> sorted[k] in counts
    ensures Names(rows) == sorted
    ensures forall k :: 0 <= k < |rows| ==> rows[k].products == counts[sorted[k]]
  {
    seq(|sorted|, k requires 0 <= k < |sorted| => NameCount(sorted[k], counts[sorted[k]]))
  }

  /** Sorting the keys of the finished counts gives the aggregate. */
  lemma CountedRows(counts: map<string, nat>, keys: seq<string>, names: seq<string>)
    requires Counted(counts, keys, names)
    ensures forall k :: 0 <= k < |SortNames(keys)| ==> SortNames(keys)[k] in counts
    ensures IsTally(Rows(counts, SortNames(keys)), names)
  {
    var sorted := SortNames(keys);
    assert forall k :: 0 <= k < |sorted| ==> sorted[k] in counts by {
      forall k | 0 <= k < |sorted| ensures sorted[k] in counts {
        assert sorted[k] in multiset(keys);
      }
    }
    var rows := Rows(counts, sorted);
    forall n | n in names && n != "" ensures n in Names(rows) {
      assert n in multiset(keys);
    }
  }

  /** The counting loop, ksort and array_map of availableCategories/availableBrands. */
  method Tally(names: seq<string>) returns (rows: seq<NameCount>)
    ensures IsTally(rows, names)
  {
    var counts, keys := CountNames(names);
    CountedRows(counts, keys, names);
    rows := Rows(counts, SortNames(keys));
  }

  /** The sorted rows never repeat a name: one row per category or brand. */
  lemma TallyNamesDistinct(rows: seq<NameCount>, names: seq<string>)
    requires IsTally(rows, names)
    ensures Distinct(Names(rows))
  {
    var ns := Names(rows);
    forall i, j | 0 <= i < j < |ns| ensures ns[i] != ns[j] {
      BelowIrreflexive(ns[i]);
    }
  }

  /** availableCategories(): categories with their product counts, sorted by name. */
  method AvailableCategories(catalog: seq<Product>) returns (rows: seq<NameCount>)
    ensures IsTally(rows, CategoryNames(catalog))
  {
    rows := Tally(CategoryNames(catalog));
  }

  /** availableBrands(): brands with their product counts, sorted by name. */
  method AvailableBrands(catalog: seq<Product>) returns (rows: seq<NameCount>)
    ensures IsTally(rows, BrandNames(catalog))
  {
    rows := Tally(BrandNames(catalog));
  }
}
