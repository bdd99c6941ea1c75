/** The sitemap's traversal of the catalogue and the backend's projection of it
    (frontend/src/app/sitemap.ts, backend-go/internal/postgres/c2projection.go). */
module Sitemap {
  import opened Outcomes

  /** A row of the product listing in its fixed order. */
  datatype Row = Row(id: nat, slug: nat, at: nat, price: int, wellFormed: bool)

  const PAGE_SIZE := 100
  const MAX_PAGES := 50
  const MAX_IN_FLIGHT := 4
  const SITEMAP_LIMIT := 5000

  /** What the product endpoint answers at an offset; it may be anything. */
  type Api = nat -> seq<Row>

  /** Paging one request at a time, from a page on. */
  function Serial(api: Api, page: nat): seq<Row>
    decreases MAX_PAGES - page
  {
    if page >= MAX_PAGES then [] else
      var batch := api(page * PAGE_SIZE);
      batch + if |batch| < PAGE_SIZE then [] else Serial(api, page + 1)
  }

  /** How many requests that takes. */
  function Requests(api: Api, page: nat): nat
    decreases MAX_PAGES - page
  {
    if page >= MAX_PAGES then 0 else 1 + if |api(page * PAGE_SIZE)| < PAGE_SIZE then 0 else Requests(api, page + 1)
  }

  lemma SerialNext(api: Api, page: nat)
    requires page < MAX_PAGES
    ensures var batch := api(page * PAGE_SIZE);
      Serial(api, page) == batch + (if |batch| < PAGE_SIZE then [] else Serial(api, page + 1))
      && Requests(api, page) == 1 + if |batch| < PAGE_SIZE then 0 else Requests(api, page + 1)
  {
  }

  lemma SerialEnds(api: Api)
    ensures Serial(api, MAX_PAGES) == [] && Requests(api, MAX_PAGES) == 0
  {
  }

  /** One round of requests: appends the pages in order, up to the first short one. */
  method Append(api: Api, products: seq<Row>, page: nat, batches: seq<seq<Row>>)
    returns (all: seq<Row>, done: bool)
    requires page + |batches| <= MAX_PAGES && forall i :: 0 <= i < |batches| ==>
      batches[i] == api((page + i) * PAGE_SIZE)
    ensures done ==> all == products + Serial(api, page) && 1 <= Requests(api, page) <= |batches|
    ensures !done ==>
      all + Serial(api, page + |batches|) == products + Serial(api, page) &&
      Requests(api, page) == |batches| + Requests(api, page + |batches|)
  {
    hide Serial, Requests;
    all, done := products, false;
    for i := 0 to |batches|
      invariant all + Serial(api, page + i) == products + Serial(api, page) &&
        Requests(api, page) == i + Requests(api, page + i)
    {
      SerialNext(api, page + i);
      all := all + batches[i];
      if |batches[i]| < PAGE_SIZE { return all, true; }
      assert all + Serial(api, page + i + 1) == products + Serial(api, page);
    }
  }

  /** allProducts: several pages at a time, and still the list of the serial traversal, for at
      most three requests more. */
  method AllProducts(api: Api) returns (products: seq<Row>, requests: nat)
    ensures products == Serial(api, 0)
    ensures Requests(api, 0) <= requests <= Requests(api, 0) + 3 && requests <= MAX_PAGES
  {
    hide Serial, Requests;
    products, requests := [], 0;
    var page := 0;
    while page < MAX_PAGES
      invariant page <= MAX_PAGES && requests == page
      invariant products + Serial(api, page) == Serial(api, 0) && page + Requests(api, page) == Requests(api, 0)
      decreases MAX_PAGES - page
    {
      var wanted := if page == 0 then 1 else MAX_IN_FLIGHT;
      var width := if wanted < MAX_PAGES - page then wanted else MAX_PAGES - page;
      var batches := seq(width, i requires 0 <= i < width => api((page + i) * PAGE_SIZE));
      requests := requests + width;
      var done;
      products, done := Append(api, products, page, batches);
      if done { return; }
      page := page + width;
    }
    SerialEnds(api);
  }

  // ----- over one catalogue -----

  function Window(rows: seq<Row>, offset: nat, limit: nat): seq<Row> {
    var from := if offset < |rows| then offset else |rows|;
    rows[from..if from + limit < |rows| then from + limit else |rows|]
  }

  function Paged(rows: seq<Row>): Api { (offset: nat) => Window(rows, offset, PAGE_SIZE) }

  function First(rows: seq<Row>, n: nat): seq<Row> { if n < |rows| then rows[..n] else rows }

  lemma {:induction false} SerialFrom(rows: seq<Row>, page: nat)
    requires page <= MAX_PAGES && page * PAGE_SIZE <= |rows|
    ensures First(rows, page * PAGE_SIZE) + Serial(Paged(rows), page) == First(rows, SITEMAP_LIMIT)
    decreases MAX_PAGES - page
  {
    if page < MAX_PAGES {
      var batch := Paged(rows)(page * PAGE_SIZE);
      if |batch| == PAGE_SIZE {
        SerialFrom(rows, page + 1);
        assert First(rows, page * PAGE_SIZE) + batch == First(rows, (page + 1) * PAGE_SIZE);
      } else {
        assert First(rows, page * PAGE_SIZE) + batch == rows;
      }
    }
  }

  /** The sitemap lists the first five thousand products, in catalogue order. */
  lemma SerialLists(rows: seq<Row>)
    ensures Serial(Paged(rows), 0) == First(rows, SITEMAP_LIMIT)
  {
    SerialFrom(rows, 0);
  }

  /** One request a full page and one more, up to fifty: the first page that is not full is the last
      one asked for. */
  lemma {:induction false} RequestsNeeded(rows: seq<Row>, page: nat)
    requires page <= MAX_PAGES && page * PAGE_SIZE <= |rows|
    ensures page + Requests(Paged(rows), page) == if |rows| >= SITEMAP_LIMIT then MAX_PAGES
      else |rows| / PAGE_SIZE + 1
    decreases MAX_PAGES - page
  {
    if page < MAX_PAGES && |rows| >= (page + 1) * PAGE_SIZE { RequestsNeeded(rows, page + 1); }
  }

  // ----- the backend's projection -----

  datatype Projection = Projection(index: map<nat, nat>, count: nat, truncated: bool)

  /** What the projection refuses: a repeated id, a malformed id or slug, a price inversion. */
  ghost predicate Orderly(rows: seq<Row>) {
    && (forall i :: 0 <= i < |rows| ==> rows[i].wellFormed && rows[i].price >= -1)
    && (forall i, j :: 0 <= i < j < |rows| ==> rows[i].id != rows[j].id && rows[i].price <= rows[j].price)
  }

  ghost predicate Indexed(rows: seq<Row>, index: map<nat, nat>) {
    && (forall id :: id in index ==> index[id] < |rows| && rows[index[id]].id == id)
    && (forall k :: 0 <= k < |rows| ==> rows[k].id in index && index[rows[k].id] == k)
  }

  lemma OrderlyNext(rows: seq<Row>, index: map<nat, nat>, row: Row)
    requires Orderly(rows) && Indexed(rows, index)
    ensures Orderly(rows + [row]) <==>
      row.id !in index && row.wellFormed && row.price >= if rows == [] then -1 else rows[|rows| - 1].price
    ensures row.id !in index ==> Indexed(rows + [row], index[row.id := |rows|])
  {
    var next, n := rows + [row], |rows|;
    assert row.id in index ==> next[index[row.id]] == rows[index[row.id]] && index[row.id] < n;
    if Orderly(next) {
      if n > 0 { assert next[n - 1].price <= next[n].price; }
    }
    if row.id !in index {
      forall k | 0 <= k < n ensures rows[k].id != row.id { assert rows[k].id in index && index[rows[k].id] == k; }
      if row.wellFormed && row.price >= if rows == [] then -1 else rows[n - 1].price {
        forall i, j | 0 <= i < j < |next| ensures next[i].id != next[j].id && next[i].price <= next[j].price {
          if j == n { assert i < n - 1 ==> rows[i].price <= rows[n - 1].price; }
        }
        assert n > 0 ==> rows[n - 1].price >= -1;
      }
    }
  }

  lemma OrderlyPrefix(rows: seq<Row>, n: nat)
    requires n <= |rows| && Orderly(rows)
    ensures Orderly(rows[..n])
  {
  }

  /** The loop over the rows found. */
  method Scan(found: seq<Row>) returns (ok: bool, index: map<nat, nat>)
    ensures ok <==> Orderly(found)
    ensures ok ==> Indexed(found, index)
  {
    hide Orderly, Indexed;
    index := map[];
    var last := -1;
    NothingScanned();
    for n := 0 to |found|
      invariant Orderly(found[..n]) && Indexed(found[..n], index) && last == if n == 0 then -1
        else found[n - 1].price
    {
      var row := found[n];
      OrderlyNext(found[..n], index, row);
      assert found[..n + 1] == found[..n] + [row];
      if row.id in index || !row.wellFormed || row.price < last {
        if Orderly(found) { OrderlyPrefix(found, n + 1); }
        return false, index;
      }
      last := row.price;
      index := index[row.id := n];
    }
    assert found[..|found|] == found;
    ok := true;
  }

  lemma NothingScanned()
    ensures Orderly([]) && Indexed([], map[])
  {
  }

  /** c2Sitemap on the catalogue: one query for one row more than the sitemap can list. */
  method Project(rows: seq<Row>) returns (r: Option<Projection>)
    ensures r.Some? <==> Orderly(First(rows, SITEMAP_LIMIT + 1))
    ensures r.Some? ==>
      r.value.count == |Serial(Paged(rows), 0)| && (r.value.truncated <==> |rows| > SITEMAP_LIMIT)
    ensures r.Some? ==> Indexed(First(rows, SITEMAP_LIMIT + 1), r.value.index)
  {
    hide Orderly, Indexed, Serial;
    var found := First(rows, SITEMAP_LIMIT + 1);
    var ok, index := Scan(found);
    if !ok { return None; }
    var n := |found|;
    SerialLists(rows);
    r := Some(if n > SITEMAP_LIMIT then Projection(index, SITEMAP_LIMIT, true) else Projection(index, n, false));
  }

  /** A candidate gets the position it has in the list the sitemap is made from, or none if it is
      not in that list. */
  lemma PositionsTrue(rows: seq<Row>, p: Projection, id: nat)
    requires p.count == |Serial(Paged(rows), 0)| && Indexed(First(rows, SITEMAP_LIMIT + 1), p.index)
    ensures var listed := Serial(Paged(rows), 0);
      && (id in p.index && p.index[id] < p.count ==> listed[p.index[id]].id == id)
      && (!(id in p.index && p.index[id] < p.count) ==> forall k :: 0 <= k < |listed| ==> listed[k].id != id)
  {
    hide Serial, Paged;
    SerialLists(rows);
    var listed, found := First(rows, SITEMAP_LIMIT), First(rows, SITEMAP_LIMIT + 1);
    forall k | 0 <= k < |listed| ensures k < |found| && found[k] == listed[k] {}
    if id in p.index { assert found[p.index[id]].id == id; }
    forall k | 0 <= k < |listed| && listed[k].id == id ensures id in p.index && p.index[id] == k { assert found[k].id == id; }
  }
}
