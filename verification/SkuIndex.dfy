/**
 * The Compute SKU catalogue store: one cached snapshot and three indexes over it, swapped together.
 */
module SkuIndex {
  import opened Options
  import opened Text

  datatype Row = Row(name: string, location: string, details: string) {
    function Sku(): string { Norm(name) }
    function Place(): string { Norm(location) }
    /** Rows without a name or a location are not indexed. */
    predicate Indexed() { Sku() != "" && Place() != "" }
  }

  type Catalog = seq<Row>

  datatype Stored = Failing | Missing | Present(etag: string, catalog: Catalog)

  datatype Found = Unasked | Broken | Rows(rows: seq<Row>)

  // ---- what a lookup should say ----

  datatype Query = OfSku(sku: string) | OfPlace(place: string) | OfPair(sku: string, place: string) {
    predicate Admits(r: Row) {
      r.Indexed() && (!OfPlace? ==> r.Sku() == sku) && (!OfSku? ==> r.Place() == place)
    }
  }

  /** A row answers a query by its trimmed lower-case name and location, and needs both. */
  lemma AdmitsExactly(q: Query, r: Row)
    ensures q.Admits(r) <==>
            && Norm(r.name) != "" && Norm(r.location) != ""
            && match q
               case OfSku(sku) => Norm(r.name) == sku
               case OfPlace(place) => Norm(r.location) == place
               case OfPair(sku, place) => Norm(r.name) == sku && Norm(r.location) == place
  {
  }

  /** The admitted rows in catalogue order. */
  function Where(catalog: Catalog, q: Query): seq<Row> {
    if catalog == [] then []
    else Where(catalog[..|catalog| - 1], q) + if q.Admits(catalog[|catalog| - 1]) then [catalog[|catalog| - 1]] else []
  }

  function LastOnly(rows: seq<Row>): seq<Row> {
    if rows == [] then [] else [rows[|rows| - 1]]
  }

  lemma LastOnlyIsTheLast(rows: seq<Row>, r: Row)
    ensures LastOnly([]) == [] && LastOnly(rows + [r]) == [r]
  {
  }

  /** Where keeps exactly the admitted rows, each as often as it occurs. */
  lemma {:induction false} WhereKeepsTheAdmitted(catalog: Catalog, q: Query, row: Row)
    ensures multiset(Where(catalog, q))[row] == if q.Admits(row) then multiset(catalog)[row] else 0
  {
    if catalog != [] {
      var before, last := catalog[..|catalog| - 1], catalog[|catalog| - 1];
      WhereKeepsTheAdmitted(before, q, row);
      assert catalog == before + [last];
    }
  }

  function Listed(index: map<string, seq<Row>>, key: string): seq<Row> {
    if key in index then index[key] else []
  }

  function Paired(index: map<(string, string), Row>, sku: string, place: string): seq<Row> {
    if (sku, place) in index then [index[(sku, place)]] else []
  }

  ghost predicate BySku(catalog: Catalog, index: map<string, seq<Row>>) {
    forall key :: Listed(index, key) == Where(catalog, OfSku(key))
  }

  ghost predicate ByPlace(catalog: Catalog, index: map<string, seq<Row>>) {
    forall key :: Listed(index, key) == Where(catalog, OfPlace(key))
  }

  /** A pair several rows share keeps the last of them. */
  ghost predicate ByPair(catalog: Catalog, index: map<(string, string), Row>) {
    forall sku, place :: Paired(index, sku, place) == LastOnly(Where(catalog, OfPair(sku, place)))
  }

  ghost predicate IndexesOf(catalog: Catalog, byPair: map<(string, string), Row>, bySku: map<string, seq<Row>>,
      byPlace: map<string, seq<Row>>)
  {
    BySku(catalog, bySku) && ByPlace(catalog, byPlace) && ByPair(catalog, byPair)
  }

  class ComputeSkuStore {
    var cachedEtag: Option<string>
    var cached: Option<Catalog>
    var byPair: map<(string, string), Row>
    var bySku: map<string, seq<Row>>
    var byPlace: map<string, seq<Row>>

    /** The indexes are exactly those of the cached snapshot, and empty without one. */
    ghost predicate Valid()
      reads this
    {
      IndexesOf(if cached.Some? then cached.value else [], byPair, bySku, byPlace)
    }

    constructor ()
      ensures Valid() && cached == None && cachedEtag == None
    {
      cachedEtag, cached, byPair, bySku, byPlace := None, None, map[], map[], map[];
    }

    method SetCache(catalog: Catalog, etag: Option<string>)
      modifies this
      ensures Valid() && cached == Some(catalog) && cachedEtag == etag
    {
      var pairs: map<(string, string), Row> := map[];
      var skus: map<string, seq<Row>> := map[];
      var places: map<string, seq<Row>> := map[];
      for k := 0 to |catalog|
        invariant IndexesOf(catalog[..k], pairs, skus, places)
      {
        var row := catalog[k];
        assert catalog[..k + 1] == catalog[..k] + [row];
        if row.Indexed() {
          var sku, place := row.Sku(), row.Place();
          IndexSku(catalog[..k], skus, row, sku);
          IndexPlace(catalog[..k], places, row, place);
          IndexPair(catalog[..k], pairs, row, sku, place);
          pairs := pairs[(sku, place) := row];
          skus := skus[sku := Listed(skus, sku) + [row]];
          places := places[place := Listed(places, place) + [row]];
        } else {
          SkipOne(catalog[..k], pairs, skus, places, row);
        }
      }
      assert catalog[..|catalog|] == catalog;
      cachedEtag, cached, byPair, bySku, byPlace := etag, Some(catalog), pairs, skus, places;
    }

    /**
     * What the manifest currently names, from the cache when the ETag is the cached one.  The caller
     * knows that an equal ETag means an equal snapshot: that is what the cache protocol guarantees.
     */
    method Snapshot(stored: Stored) returns (ok: bool, catalog: Option<Catalog>)
      requires Valid() && (stored.Present? && cached.Some? && cachedEtag == Some(stored.etag) ==>
          cached.value == stored.catalog)
      modifies this
      ensures Valid() && ok == !stored.Failing?
      ensures catalog == if stored.Present? then Some(stored.catalog) else None
      ensures stored.Present? ==> cached == Some(stored.catalog) && cachedEtag == Some(stored.etag)
      ensures !stored.Present? ==> cached == old(cached) && cachedEtag == old(cachedEtag)
    {
      match stored
      case Failing => return false, None;
      case Missing => return true, None;
      case Present(etag, fetched) =>
        if cached.Some? && cachedEtag == Some(etag) { return true, cached; }
        SetCache(fetched, Some(etag));
        return true, Some(fetched);
    }

    /** Lower-cased but not stripped arguments are looked up in indexes keyed by stripped names. */
    method Find(sku: string, place: string, stored: Stored) returns (found: Found)
      requires Valid() && (stored.Present? && cached.Some? && cachedEtag == Some(stored.etag) ==>
          cached.value == stored.catalog)
      modifies this
      ensures Valid()
      ensures found ==
        if sku == "" && place == "" then Unasked
        else if stored.Failing? then Broken
        else if stored.Missing? then Rows([])
        else if place == "" then Rows(Where(stored.catalog, OfSku(Lower(sku))))
        else if sku == "" then Rows(Where(stored.catalog, OfPlace(Lower(place))))
        else Rows(LastOnly(Where(stored.catalog, OfPair(Lower(sku), Lower(place)))))
    {
      if sku == "" && place == "" { return Unasked; }
      var ok, catalog := Snapshot(stored);
      if !ok { return Broken; }
      if catalog.None? { return Rows([]); }
      var s, p := Lower(sku), Lower(place);
      if s != "" && p != "" { return Rows(Paired(byPair, s, p)); }
      if s != "" { return Rows(Listed(bySku, s)); }
      return Rows(Listed(byPlace, p));
    }

    /** Each asked pair that has a row is answered with its last one; errors say so for every pair. */
    method FindPairs(pairs: set<(string, string)>, stored: Stored)
      returns (found: map<(string, string), Row>, errors: set<(string, string)>)
      requires Valid() && (stored.Present? && cached.Some? && cachedEtag == Some(stored.etag) ==>
          cached.value == stored.catalog)
      modifies this
      ensures Valid()
      ensures errors == if stored.Present? then {} else Asked(pairs)
      ensures !stored.Present? ==> found == map[]
      ensures stored.Present? ==>
                && (forall pair :: pair in found <==>
                     pair in Asked(pairs) && Where(stored.catalog, OfPair(pair.0, pair.1)) != [])
                && (forall pair | pair in found ::
                     [found[pair]] == LastOnly(Where(stored.catalog, OfPair(pair.0, pair.1))))
    {
      var normalized := Asked(pairs);
      if normalized == {} { return map[], {}; }
      var ok, catalog := Snapshot(stored);
      if catalog.None? { return map[], normalized; }
      found := map pair | pair in normalized && pair in byPair :: byPair[pair];
      errors := {};
      forall pair | pair in normalized
        ensures pair in byPair <==> Where(stored.catalog, OfPair(pair.0, pair.1)) != []
        ensures pair in byPair ==> [byPair[pair]] == LastOnly(Where(stored.catalog, OfPair(pair.0, pair.1)))
      {
        PairIsIndexed(stored.catalog, byPair, pair);
      }
    }
  }

  function Asked(pairs: set<(string, string)>): set<(string, string)> {
    set pair | pair in pairs && Norm(pair.0) != "" && Norm(pair.1) != "" :: (Norm(pair.0), Norm(pair.1))
  }

  lemma PairIsIndexed(catalog: Catalog, index: map<(string, string), Row>, pair: (string, string))
    requires ByPair(catalog, index)
    ensures pair in index <==> Where(catalog, OfPair(pair.0, pair.1)) != []
    ensures pair in index ==> [index[pair]] == LastOnly(Where(catalog, OfPair(pair.0, pair.1)))
  {
    assert (pair.0, pair.1) == pair;
    assert Paired(index, pair.0, pair.1) == LastOnly(Where(catalog, OfPair(pair.0, pair.1)));
  }

  /** The asked pairs are the given ones, trimmed and in lower case, that have both parts. */
  lemma AskedExactly(pairs: set<(string, string)>, asked: (string, string))
    ensures asked in Asked(pairs) <==>
            && asked.0 != "" && asked.1 != ""
            && exists pair :: pair in pairs && Norm(pair.0) == asked.0 && Norm(pair.1) == asked.1
  {
    assert (asked.0, asked.1) == asked;
  }

  lemma Extends(catalog: Catalog, row: Row, q: Query)
    ensures Where(catalog + [row], q) == Where(catalog, q) + if q.Admits(row) then [row] else []
  {
    assert (catalog + [row])[..|catalog|] == catalog;
  }

  lemma IndexSku(catalog: Catalog, index: map<string, seq<Row>>, row: Row, sku: string)
    requires BySku(catalog, index) && row.Indexed() && sku == row.Sku()
    ensures BySku(catalog + [row], index[sku := Listed(index, sku) + [row]])
  {
    forall key ensures Listed(index[sku := Listed(index, sku) + [row]], key) == Where(catalog + [row], OfSku(key)) {
      Extends(catalog, row, OfSku(key));
      assert OfSku(key).Admits(row) <==> key == sku;
      assert Listed(index, key) == Where(catalog, OfSku(key));
    }
  }

  lemma IndexPlace(catalog: Catalog, index: map<string, seq<Row>>, row: Row, place: string)
    requires ByPlace(catalog, index) && row.Indexed() && place == row.Place()
    ensures ByPlace(catalog + [row], index[place := Listed(index, place) + [row]])
  {
    forall key
      ensures Listed(index[place := Listed(index, place) + [row]], key) == Where(catalog + [row], OfPlace(key))
    {
      Extends(catalog, row, OfPlace(key));
      assert OfPlace(key).Admits(row) <==> key == place;
      assert Listed(index, key) == Where(catalog, OfPlace(key));
    }
  }

  lemma IndexPair(catalog: Catalog, index: map<(string, string), Row>, row: Row, sku: string, place: string)
    requires ByPair(catalog, index) && row.Indexed() && sku == row.Sku() && place == row.Place()
    ensures ByPair(catalog + [row], index[(sku, place) := row])
  {
    forall s, p ensures Paired(index[(sku, place) := row], s, p) == LastOnly(Where(catalog + [row], OfPair(s, p))) {
      Extends(catalog, row, OfPair(s, p));
      assert OfPair(s, p).Admits(row) <==> s == sku && p == place;
      assert Paired(index, s, p) == LastOnly(Where(catalog, OfPair(s, p)));
    }
  }

  lemma SkipOne(catalog: Catalog, byPair: map<(string, string), Row>, bySku: map<string, seq<Row>>,
      byPlace: map<string, seq<Row>>, row: Row)
    requires IndexesOf(catalog, byPair, bySku, byPlace) && !row.Indexed()
    ensures IndexesOf(catalog + [row], byPair, bySku, byPlace)
  {
    forall q ensures Where(catalog + [row], q) == Where(catalog, q) { Extends(catalog, row, q); }
  }

  /**
   * find with a padded name finds nothing, where find_pairs, which strips it, finds the rows of the
   * trimmed name.
   */
  lemma PaddedNamesAreNotFound(catalog: Catalog, sku: string, place: string)
    requires Lower(sku) != Norm(Lower(sku))
    ensures Where(catalog, OfSku(Lower(sku))) == [] && Where(catalog, OfPair(Lower(sku), place)) == []
  {
    forall row: Row ensures row.Sku() != Lower(sku) { NormIsIdempotent(row.name); }
    forall q: Query | !q.OfPlace? && q.sku == Lower(sku)
      ensures Where(catalog, q) == []
    {
      NothingAdmitted(catalog, q);
    }
  }

  lemma {:induction false} NothingAdmitted(catalog: Catalog, q: Query)
    requires forall row | row in catalog :: !q.Admits(row)
    ensures Where(catalog, q) == []
  {
    if catalog != [] {
      assert catalog[|catalog| - 1] in catalog;
      NothingAdmitted(catalog[..|catalog| - 1], q);
    }
  }

  lemma {:induction false} StripLeftStops(s: string)
    ensures StripLeft(s) != [] ==> !IsSpace(StripLeft(s)[0])
    ensures StripLeft(s) == [] || StripLeft(StripLeft(s)) == StripLeft(s)
  {
    if s != [] && IsSpace(s[0]) { StripLeftStops(s[1..]); }
  }

  lemma {:induction false} StripRightStops(s: string)
    ensures StripRight(s) != [] ==> !IsSpace(StripRight(s)[|StripRight(s)| - 1]) && StripRight(s)[0] == s[0]
    ensures |StripRight(s)| <= |s|
  {
    if s != [] && IsSpace(s[|s| - 1]) { StripRightStops(s[..|s| - 1]); }
  }

  /** Stripping and lower-casing twice is once. */
  lemma NormIsIdempotent(s: string)
    ensures Norm(Norm(s)) == Norm(s)
  {
    StripLeftStops(s);
    StripRightStops(StripLeft(s));
    var t := Strip(s);
    if t != "" {
      assert !IsSpace(t[0]) && !IsSpace(t[|t| - 1]);
      assert !IsSpace(Lower(t)[0]) && !IsSpace(Lower(t)[|t| - 1]);
      assert StripLeft(Lower(t)) == Lower(t) && StripRight(Lower(t)) == Lower(t);
    }
    assert Lower(Lower(t)) == Lower(t);
  }
}
