/**
  The loaded page of requests and the view data derived from it: the
  per-page duplicate-title summary and the "recent" badge.
*/
module RequestList {
  import opened Wrappers

  /** One stored request as the list endpoint returns it. The timestamp is
      an instant in integer milliseconds. */
  datatype Request = Request(
    id: string, name: string, phone: string, title: string,
    image: Option<string>, timestamp: int)

  datatype Pagination = Pagination(currentPage: int, totalPages: int, totalItems: int, itemsPerPage: int)

  /** The pagination the page starts with, before any page is loaded. */
  const InitialPagination: Pagination := Pagination(1, 1, 0, 5)

  function Titles(items: seq<Request>): (ts: seq<string>)
    ensures |ts| == |items|
    ensures forall i :: 0 <= i < |items| ==> ts[i] == items[i].title
  {
    seq(|items|, i requires 0 <= i < |items| => items[i].title)
  }

  // ---------------------------------------------------------------------
  // Counting titles
  // ---------------------------------------------------------------------

  /** The `count` dictionary after the `forEach` over the page, item by item
      in page order: each title's entry goes up by one, starting from zero.
      It holds exactly the titles of the page, each with its number of
      occurrences. */
  function TitleCounts(titles: seq<string>): (m: map<string, nat>)
    ensures forall t :: t in m <==> t in titles
    ensures forall t :: t in m ==> m[t] == multiset(titles)[t]
  {
    if titles == [] then map[]
    else
      var prefix := titles[..|titles| - 1];
      var t := titles[|titles| - 1];
      assert titles == prefix + [t];
      var prev := TitleCounts(prefix);
      prev[t := (if t in prev then prev[t] else 0) + 1]
  }

  /** The duplicate summary: the titles that occur more than once in the
      page, each with its number of occurrences. Titles that occur once or
      not at all are absent. */
  function Duplicates(titles: seq<string>): (d: map<string, nat>)
    ensures forall t :: t in d <==> multiset(titles)[t] > 1
    ensures forall t :: t in d ==> d[t] == multiset(titles)[t] && d[t] >= 2
  {
    var count := TitleCounts(titles);
    map t | t in count && count[t] > 1 :: count[t]
  }

  /** Counting one more title: its entry goes up by one, or appears with 1. */
  lemma TitleCountsSnoc(prefix: seq<string>, t: string)
    ensures var prev := TitleCounts(prefix);
            TitleCounts(prefix + [t]) == prev[t := (if t in prev then prev[t] else 0) + 1]
  {
    var s := prefix + [t];
    assert s[..|s| - 1] == prefix;
  }

  /** Sum of the values of a map. */
  ghost function Total(m: map<string, nat>): nat
    decreases |m|
  {
    if m == map[] then 0
    else
      var k :| k in m;
      assert (m - {k}).Keys == m.Keys - {k};
      m[k] + Total(m - {k})
  }

  /** The sum does not depend on which key is taken out first. */
  lemma {:induction false} TotalRemove(m: map<string, nat>, k: string)
    requires k in m
    ensures Total(m) == m[k] + Total(m - {k})
    decreases |m|
  {
    var j :| j in m && Total(m) == m[j] + Total(m - {j});
    if j != k {
      assert (m - {j}).Keys == m.Keys - {j};
      assert (m - {k}).Keys == m.Keys - {k};
      TotalRemove(m - {j}, k);
      TotalRemove(m - {k}, j);
      assert m - {j} - {k} == m - {k} - {j};
    }
  }

  /** The counts add up to the number of items on the page. */
  lemma {:induction false} CountsSumToPageLength(titles: seq<string>)
    ensures Total(TitleCounts(titles)) == |titles|
  {
    if titles != [] {
      var prefix := titles[..|titles| - 1];
      var t := titles[|titles| - 1];
      var prev := TitleCounts(prefix);
      var m := TitleCounts(titles);
      assert titles == prefix + [t];
      TitleCountsSnoc(prefix, t);
      CountsSumToPageLength(prefix);
      TotalRemove(m, t);
      assert m - {t} == prev - {t};
      if t in prev {
        TotalRemove(prev, t);
      } else {
        assert prev - {t} == prev;
      }
    }
  }

  /** The summary depends only on which titles the page holds and how often,
      not on their order: the same page sorted the other way gives the same
      summary. */
  lemma DuplicatesIgnoreOrder(a: seq<string>, b: seq<string>)
    requires multiset(a) == multiset(b)
    ensures Duplicates(a) == Duplicates(b)
  {
    var da, db := Duplicates(a), Duplicates(b);
    assert forall t :: t in da <==> t in db;
    assert da.Keys == db.Keys;
  }

  /** An example page A, B, A, C, B, B as a bag of titles. */
  lemma ExamplePageBag(a: string, b: string, c: string)
    ensures multiset([a, b, a, c, b, b]) == multiset{a, a, b, b, b, c}
  {
  }

  lemma ExampleBagCount(a: string, b: string, c: string, t: string)
    requires a != b && b != c && a != c
    ensures multiset{a, a, b, b, b, c}[t] == if t == a then 2 else if t == b then 3 else if t == c then 1 else 0
  {
  }

  /** Occurrences in an example page A, B, A, C, B, B. */
  lemma ExampleOccurrences(a: string, b: string, c: string, t: string)
    requires a != b && b != c && a != c
    ensures multiset([a, b, a, c, b, b])[t] == if t == a then 2 else if t == b then 3 else if t == c then 1 else 0
  {
    ExamplePageBag(a, b, c);
    ExampleBagCount(a, b, c, t);
  }

  /** An example page: for any three distinct titles A, B and C, the page
      A, B, A, C, B, B gives the summary {A: 2, B: 3}. */
  lemma DuplicatesExample(a: string, b: string, c: string)
    requires a != b && b != c && a != c
    ensures Duplicates([a, b, a, c, b, b]) == map[a := 2, b := 3]
  {
    var d := Duplicates([a, b, a, c, b, b]);
    forall t ensures t in d <==> t == a || t == b {
      ExampleOccurrences(a, b, c, t);
    }
    ExampleOccurrences(a, b, c, a);
    ExampleOccurrences(a, b, c, b);
    assert d.Keys == {a, b};
  }

  /** The first `forEach`: count each title of the page. */
  method CountTitles(titles: seq<string>) returns (count: map<string, nat>)
    ensures count == TitleCounts(titles)
  {
    count := map[];
    var i := 0;
    while i < |titles|
      invariant 0 <= i <= |titles|
      invariant count == TitleCounts(titles[..i])
    {
      var t := titles[i];
      assert titles[..i + 1] == titles[..i] + [t];
      TitleCountsSnoc(titles[..i], t);
      count := count[t := (if t in count then count[t] else 0) + 1];
      i := i + 1;
    }
    assert titles[..|titles|] == titles;
  }

  /** The second `forEach`: keep the entries whose count exceeds one. */
  method KeepRepeated(count: map<string, nat>) returns (duplicates: map<string, nat>)
    ensures forall t :: t in duplicates <==> t in count && count[t] > 1
    ensures forall t :: t in duplicates ==> duplicates[t] == count[t]
  {
    duplicates := map[];
    var pending := count.Keys;
    while pending != {}
      invariant pending <= count.Keys
      invariant forall t :: t in duplicates <==> t in count && t !in pending && count[t] > 1
      invariant forall t :: t in duplicates ==> duplicates[t] == count[t]
      decreases pending
    {
      var t :| t in pending;
      if count[t] > 1 {
        duplicates := duplicates[t := count[t]];
      }
      pending := pending - {t};
    }
  }

  /** The duplicate-title summary of a freshly loaded page. */
  method SummarizeDuplicates(items: seq<Request>) returns (summary: map<string, nat>)
    ensures summary == Duplicates(Titles(items))
  {
    var count := CountTitles(Titles(items));
    summary := KeepRepeated(count);
    assert summary.Keys == Duplicates(Titles(items)).Keys;
  }

  // ---------------------------------------------------------------------
  // The "recent" badge
  // ---------------------------------------------------------------------

  /** Sixty minutes in milliseconds. */
  const RecentWindow: int := 60 * 60 * 1000

  /** A request is recent when it was created at most sixty minutes before
      `now`. The source divides the difference by the milliseconds of a
      minute and compares with 60; this integer test agrees with that
      exact quotient. The boundary is included and any future timestamp
      counts as recent. */
  function IsRecent(now: int, timestamp: int): (r: bool)
    ensures r <==> (now - timestamp) as real / 60000.0 <= 60.0
    ensures timestamp >= now ==> r
  {
    now - timestamp <= RecentWindow
  }

  /** Thirty minutes ago is recent, exactly sixty minutes ago is recent,
      one millisecond more is not, ninety minutes ago is not. */
  lemma RecentBoundary(now: int)
    ensures IsRecent(now, now - 30 * 60000)
    ensures IsRecent(now, now - 60 * 60000)
    ensures !IsRecent(now, now - 60 * 60000 - 1)
    ensures !IsRecent(now, now - 90 * 60000)
  {
  }
}
