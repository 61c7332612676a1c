/** The admin dashboard's view of all leads: CTV and Sales leads mapped
    into one shape with source-prefixed ids, ordered newest first, and the
    totals computed from that list. */
module AdminStats {
  import opened Wrappers
  import opened JsStrings
  import opened Seqs
  import CtvLeads
  import SalesLeads

  datatype Source = Ctv | Sales

  /** One lead in the merged list; `status` is the source's status text. */
  datatype AdminLead = AdminLead(
    id: string,
    source: Source,
    name: string,
    contactName: string,
    phone: string,
    area: string,
    status: string,
    estimatedRevenue: int,
    createdAt: int)

  /** How a CTV lead appears in the merged list: id `ctv-<id>`, source
      CTV, the store name as name, contact, phone and area carried over,
      its status text, no revenue estimate, and its creation time. */
  predicate CtvMapped(l: CtvLeads.CtvLead, a: AdminLead)
  {
    && a.id == "ctv-" + l.id && a.source == Ctv && a.name == l.storeName
    && a.contactName == l.contactName && a.phone == l.phone && a.area == l.area
    && a.status == CtvLeads.StatusName(l.status) && a.estimatedRevenue == 0
    && a.createdAt == l.createdAt
  }

  /** How a Sales lead appears in the merged list: id `sales-<id>`, source
      Sales, the same fields as a CTV lead, and its own revenue estimate. */
  predicate SalesMapped(l: SalesLeads.SalesLead, a: AdminLead)
  {
    && a.id == "sales-" + l.id && a.source == Sales && a.name == l.storeName
    && a.contactName == l.contactName && a.phone == l.phone && a.area == l.area
    && a.status == SalesLeads.StatusName(l.status) && a.estimatedRevenue == l.estimatedRevenue
    && a.createdAt == l.createdAt
  }

  function FromCtv(l: CtvLeads.CtvLead): (a: AdminLead)
    ensures CtvMapped(l, a)
  {
    AdminLead("ctv-" + l.id, Ctv, l.storeName, l.contactName, l.phone, l.area,
              CtvLeads.StatusName(l.status), 0, l.createdAt)
  }

  function FromSales(l: SalesLeads.SalesLead): (a: AdminLead)
    ensures SalesMapped(l, a)
  {
    AdminLead("sales-" + l.id, Sales, l.storeName, l.contactName, l.phone, l.area,
              SalesLeads.StatusName(l.status), l.estimatedRevenue, l.createdAt)
  }

  /** One merged-shape lead per CTV lead, in order. */
  function MapCtv(leads: seq<CtvLeads.CtvLead>): (r: seq<AdminLead>)
    ensures |r| == |leads|
    ensures forall i :: 0 <= i < |leads| ==> CtvMapped(leads[i], r[i])
  {
    seq(|leads|, i requires 0 <= i < |leads| => FromCtv(leads[i]))
  }

  /** One merged-shape lead per Sales lead, in order. */
  function MapSales(leads: seq<SalesLeads.SalesLead>): (r: seq<AdminLead>)
    ensures |r| == |leads|
    ensures forall i :: 0 <= i < |leads| ==> SalesMapped(leads[i], r[i])
  {
    seq(|leads|, i requires 0 <= i < |leads| => FromSales(leads[i]))
  }

  /** The mapping can be read back: a merged-shape lead gives the id,
      store name, status and creation time of the CTV lead it came from. */
  lemma CtvMappedInjective(l1: CtvLeads.CtvLead, l2: CtvLeads.CtvLead, a: AdminLead)
    requires CtvMapped(l1, a) && CtvMapped(l2, a)
    ensures l1.id == l2.id && l1.storeName == l2.storeName && l1.status == l2.status
    ensures l1.createdAt == l2.createdAt
  {
    assert ("ctv-" + l1.id)[4..] == l1.id;
    assert ("ctv-" + l2.id)[4..] == l2.id;
    CtvLeads.StatusNameInjective(l1.status, l2.status);
  }

  /** Likewise for a Sales lead, whose revenue estimate is read back too. */
  lemma SalesMappedInjective(l1: SalesLeads.SalesLead, l2: SalesLeads.SalesLead, a: AdminLead)
    requires SalesMapped(l1, a) && SalesMapped(l2, a)
    ensures l1.id == l2.id && l1.storeName == l2.storeName && l1.status == l2.status
    ensures l1.estimatedRevenue == l2.estimatedRevenue && l1.createdAt == l2.createdAt
  {
    assert ("sales-" + l1.id)[6..] == l1.id;
    assert ("sales-" + l2.id)[6..] == l2.id;
    SalesLeads.StatusNameInjective(l1.status, l2.status);
  }

  // ---------------------------------------------------------- newest first

  predicate NewestFirst(s: seq<AdminLead>)
  {
    forall i, j :: 0 <= i < j < |s| ==> s[i].createdAt >= s[j].createdAt
  }

  /** Puts `x` in front of the first entry that is not newer than it. */
  function Insert(x: AdminLead, t: seq<AdminLead>): (r: seq<AdminLead>)
    ensures |r| == |t| + 1
    ensures multiset(r) == multiset(t) + multiset{x}
    ensures r[0] == x || (|t| > 0 && r[0] == t[0])
  {
    if |t| == 0 || x.createdAt >= t[0].createdAt then [x] + t
    else
      var r := [t[0]] + Insert(x, t[1..]);
      assert t == [t[0]] + t[1..];
      r
  }

  lemma {:induction false} InsertNewestFirst(x: AdminLead, t: seq<AdminLead>)
    requires NewestFirst(t)
    ensures NewestFirst(Insert(x, t))
  {
    if |t| > 0 && x.createdAt < t[0].createdAt {
      var rest := Insert(x, t[1..]);
      InsertNewestFirst(x, t[1..]);
      assert rest[0].createdAt <= t[0].createdAt;
      var r := [t[0]] + rest;
      forall a, b | 0 <= a < b < |r|
        ensures r[a].createdAt >= r[b].createdAt
      {
        assert r[b] == rest[b - 1];
        if a > 0 {
          assert r[a] == rest[a - 1];
        } else if b > 1 {
          assert rest[0].createdAt >= rest[b - 1].createdAt;
        }
      }
    }
  }

  /** The merged list ordered by creation time, newest first. The
      language's sort is stable, so leads with equal times keep their
      order; here each lead is inserted before its equals. */
  function SortNewestFirst(s: seq<AdminLead>): (r: seq<AdminLead>)
    ensures |r| == |s|
    ensures multiset(r) == multiset(s)
    ensures NewestFirst(r)
  {
    if |s| == 0 then []
    else
      assert s == [s[0]] + s[1..];
      InsertNewestFirst(s[0], SortNewestFirst(s[1..]));
      Insert(s[0], SortNewestFirst(s[1..]))
  }

  function CreatedAt(time: int): AdminLead -> bool
  {
    (l: AdminLead) => l.createdAt == time
  }

  lemma {:induction false} InsertStable(x: AdminLead, t: seq<AdminLead>, time: int)
    ensures Filter(Insert(x, t), CreatedAt(time)) == Filter([x] + t, CreatedAt(time))
  {
    if |t| > 0 && x.createdAt < t[0].createdAt {
      var y, tail := t[0], t[1..];
      assert t == [y] + tail;
      var p := CreatedAt(time);
      var rest := Insert(x, tail);
      var hx: seq<AdminLead> := if p(x) then [x] else [];
      var hy: seq<AdminLead> := if p(y) then [y] else [];
      InsertStable(x, tail, time);
      InsertBehind(x, t);
      FilterCons(y, rest, p);
      FilterCons(x, tail, p);
      assert Filter(Insert(x, t), p) == hy + (hx + Filter(tail, p));
      FilterCons(y, tail, p);
      assert Filter(t, p) == hy + Filter(tail, p);
      FilterCons(x, t, p);
      assert Filter([x] + t, p) == hx + Filter(t, p);
      SwapDifferentTimes(x, y, Filter(tail, p), time);
    }
  }

  /** A lead older than the head goes behind it. */
  lemma InsertBehind(x: AdminLead, t: seq<AdminLead>)
    requires |t| > 0 && x.createdAt < t[0].createdAt
    ensures Insert(x, t) == [t[0]] + Insert(x, t[1..])
  {
  }

  /** Two leads of different times commute under a filter by time. */
  lemma SwapDifferentTimes(x: AdminLead, y: AdminLead, tail: seq<AdminLead>, time: int)
    requires x.createdAt != y.createdAt
    ensures var p := CreatedAt(time);
      (if p(y) then [y] else []) + ((if p(x) then [x] else []) + tail)
      == (if p(x) then [x] else []) + ((if p(y) then [y] else []) + tail)
  {
    var p := CreatedAt(time);
    var hx: seq<AdminLead> := if p(x) then [x] else [];
    var hy: seq<AdminLead> := if p(y) then [y] else [];
    if hx == [] {
      assert hx + tail == tail && hx + (hy + tail) == hy + tail;
    } else {
      assert hy == [];
      assert hy + (hx + tail) == hx + tail && hy + tail == tail;
    }
  }

  /** The sort is stable: the leads created at any one time appear in the
      same relative order as in the input. */
  lemma {:induction false} SortStable(s: seq<AdminLead>, time: int)
    ensures Filter(SortNewestFirst(s), CreatedAt(time)) == Filter(s, CreatedAt(time))
  {
    if |s| > 0 {
      SortStable(s[1..], time);
      InsertStable(s[0], SortNewestFirst(s[1..]), time);
      FilterAppend([s[0]], SortNewestFirst(s[1..]), CreatedAt(time));
      FilterAppend([s[0]], s[1..], CreatedAt(time));
      assert s == [s[0]] + s[1..];
    }
  }

  lemma {:induction false} InsertKeepsCount(x: AdminLead, t: seq<AdminLead>, p: AdminLead -> bool)
    ensures Count(Insert(x, t), p) == Count([x] + t, p)
  {
    if |t| > 0 && x.createdAt < t[0].createdAt {
      InsertKeepsCount(x, t[1..], p);
      CountCons(t[0], Insert(x, t[1..]), p);
      CountCons(x, t[1..], p);
      CountCons(x, t, p);
      assert t == [t[0]] + t[1..];
      CountCons(t[0], t[1..], p);
    }
  }

  lemma {:induction false} SortKeepsCount(s: seq<AdminLead>, p: AdminLead -> bool)
    ensures Count(SortNewestFirst(s), p) == Count(s, p)
  {
    if |s| > 0 {
      SortKeepsCount(s[1..], p);
      InsertKeepsCount(s[0], SortNewestFirst(s[1..]), p);
      CountCons(s[0], SortNewestFirst(s[1..]), p);
      assert s == [s[0]] + s[1..];
      CountCons(s[0], s[1..], p);
    }
  }

  lemma {:induction false} InsertKeepsSum(x: AdminLead, t: seq<AdminLead>, f: AdminLead -> int)
    ensures Sum(Insert(x, t), f) == Sum([x] + t, f)
  {
    if |t| > 0 && x.createdAt < t[0].createdAt {
      InsertKeepsSum(x, t[1..], f);
      assert ([t[0]] + Insert(x, t[1..]))[1..] == Insert(x, t[1..]);
      assert ([x] + t[1..])[1..] == t[1..];
      assert ([x] + t)[1..] == t;
    }
  }

  lemma {:induction false} SortKeepsSum(s: seq<AdminLead>, f: AdminLead -> int)
    ensures Sum(SortNewestFirst(s), f) == Sum(s, f)
  {
    if |s| > 0 {
      SortKeepsSum(s[1..], f);
      InsertKeepsSum(s[0], SortNewestFirst(s[1..]), f);
      assert ([s[0]] + SortNewestFirst(s[1..]))[1..] == SortNewestFirst(s[1..]);
    }
  }

  // --------------------------------------------------------------- merging

  /** The merged list before sorting: CTV leads, then Sales leads. */
  function Normalised(ctv: seq<CtvLeads.CtvLead>, sales: seq<SalesLeads.SalesLead>): seq<AdminLead>
  {
    MapCtv(ctv) + MapSales(sales)
  }

  /** A lead carries the id prefix of its source; CTV leads carry no
      revenue estimate. */
  predicate WellTagged(l: AdminLead)
  {
    (l.source == Ctv ==> StartsWith(l.id, "ctv-") && l.estimatedRevenue == 0)
    && (l.source == Sales ==> StartsWith(l.id, "sales-"))
  }

  /** Leads of different sources never share an id. */
  lemma TaggedIdsDiffer(a: AdminLead, b: AdminLead)
    requires WellTagged(a) && WellTagged(b) && a.source != b.source
    ensures a.id != b.id
  {
    assert a.id[0] != b.id[0];
  }

  /** The merge of `getAdminLeads` over given lists: every lead of both
      sources exactly once, newest first, each tagged with its source. */
  function MergeLeads(ctv: seq<CtvLeads.CtvLead>, sales: seq<SalesLeads.SalesLead>): (r: seq<AdminLead>)
    ensures |r| == |ctv| + |sales|
    ensures multiset(r) == multiset(MapCtv(ctv)) + multiset(MapSales(sales))
    ensures NewestFirst(r)
    ensures forall i :: 0 <= i < |r| ==> WellTagged(r[i])
  {
    var all := Normalised(ctv, sales);
    NormalisedTagged(ctv, sales);
    var r := SortNewestFirst(all);
    TaggedPermutation(r, all);
    r
  }

  lemma NormalisedTagged(ctv: seq<CtvLeads.CtvLead>, sales: seq<SalesLeads.SalesLead>)
    ensures forall i :: 0 <= i < |Normalised(ctv, sales)| ==> WellTagged(Normalised(ctv, sales)[i])
  {
    var all := Normalised(ctv, sales);
    forall i | 0 <= i < |all|
      ensures WellTagged(all[i])
    {
      if i >= |ctv| {
        assert all[i] == FromSales(sales[i - |ctv|]);
        assert all[i].id[..6] == "sales-";
      } else {
        assert all[i] == FromCtv(ctv[i]);
        assert all[i].id[..4] == "ctv-";
      }
    }
  }

  /** A reordering of well-tagged leads is well tagged. */
  lemma TaggedPermutation(a: seq<AdminLead>, b: seq<AdminLead>)
    requires multiset(a) == multiset(b)
    requires forall i :: 0 <= i < |b| ==> WellTagged(b[i])
    ensures forall i :: 0 <= i < |a| ==> WellTagged(a[i])
  {
    forall i | 0 <= i < |a|
      ensures WellTagged(a[i])
    {
      assert a[i] in multiset(b);
    }
  }

  /** In the merged list, leads from different sources have different ids. */
  lemma MergedIdsDistinctAcrossSources(ctv: seq<CtvLeads.CtvLead>, sales: seq<SalesLeads.SalesLead>, i: nat, j: nat)
    requires i < |MergeLeads(ctv, sales)| && j < |MergeLeads(ctv, sales)|
    requires MergeLeads(ctv, sales)[i].source != MergeLeads(ctv, sales)[j].source
    ensures MergeLeads(ctv, sales)[i].id != MergeLeads(ctv, sales)[j].id
  {
    var r := MergeLeads(ctv, sales);
    TaggedIdsDiffer(r[i], r[j]);
  }

  /** `getAdminLeads`: the merge of what the two lead stores load (their
      seed lists when nothing is stored). */
  function GetAdminLeads(ctvSlot: CtvLeads.Slot, salesSlot: SalesLeads.Slot): (r: seq<AdminLead>)
    ensures |r| == |CtvLeads.LoadLeads(ctvSlot)| + |SalesLeads.LoadSalesLeads(salesSlot)|
    ensures multiset(r) == multiset(MapCtv(CtvLeads.LoadLeads(ctvSlot))) + multiset(MapSales(SalesLeads.LoadSalesLeads(salesSlot)))
    ensures NewestFirst(r)
    ensures forall i :: 0 <= i < |r| ==> WellTagged(r[i])
  {
    MergeLeads(CtvLeads.LoadLeads(ctvSlot), SalesLeads.LoadSalesLeads(salesSlot))
  }

  // ----------------------------------------------------------- statistics

  datatype AdminLeadStats = AdminLeadStats(
    totalLeads: nat,
    totalCtvLeads: nat,
    totalSalesLeads: nat,
    totalEstimatedRevenue: int,
    convertedLeads: nat,
    latestLeads: seq<AdminLead>)

  predicate IsCtv(l: AdminLead)
  {
    l.source == Ctv
  }

  predicate IsSales(l: AdminLead)
  {
    l.source == Sales
  }

  /** A Sales lead whose status text is WON. */
  predicate IsConverted(l: AdminLead)
  {
    l.source == Sales && l.status == "WON"
  }

  function Revenue(l: AdminLead): int
  {
    l.estimatedRevenue
  }

  /** How many leads `latestLeads` shows at most. */
  const LATEST_COUNT := 10

  /** The totals over the merged list. */
  function StatsOf(all: seq<AdminLead>): AdminLeadStats
  {
    AdminLeadStats(
      |all|,
      Count(all, IsCtv),
      Count(all, IsSales),
      Sum(all, Revenue),
      Count(all, IsConverted),
      all[..if |all| < LATEST_COUNT then |all| else LATEST_COUNT])
  }

  /** `getAdminLeadStats` over given lead lists: the source totals add up
      to the whole, the revenue is that of the Sales leads alone, the
      converted count is the Sales leads that are WON, and the latest
      leads are the ten newest (all of them when fewer). */
  function AdminLeadStatsOf(ctv: seq<CtvLeads.CtvLead>, sales: seq<SalesLeads.SalesLead>): (r: AdminLeadStats)
    ensures r.totalLeads == r.totalCtvLeads + r.totalSalesLeads
    ensures r.totalCtvLeads == |ctv| && r.totalSalesLeads == |sales|
    ensures r.totalEstimatedRevenue == Sum(sales, SalesLeads.Revenue)
    ensures r.convertedLeads == Count(sales, SalesLeads.IsWon)
    ensures |r.latestLeads| == if r.totalLeads < LATEST_COUNT then r.totalLeads else LATEST_COUNT
    ensures r.latestLeads == MergeLeads(ctv, sales)[..|r.latestLeads|]
    ensures NoneOmittedIsNewer(r.latestLeads, MergeLeads(ctv, sales))
  {
    var all := MergeLeads(ctv, sales);
    MergedTotals(ctv, sales);
    LatestAreNewest(all);
    StatsOf(all)
  }

  /** No lead of `all` left out of `latest` is newer than one kept. */
  predicate NoneOmittedIsNewer(latest: seq<AdminLead>, all: seq<AdminLead>)
  {
    forall i, j :: 0 <= i < |latest| <= j < |all| ==> latest[i].createdAt >= all[j].createdAt
  }

  lemma LatestAreNewest(all: seq<AdminLead>)
    requires NewestFirst(all)
    ensures NoneOmittedIsNewer(StatsOf(all).latestLeads, all)
  {
  }

  /** The merge is the sort of the two mapped lists. */
  lemma MergeIsSorted(ctv: seq<CtvLeads.CtvLead>, sales: seq<SalesLeads.SalesLead>)
    ensures MergeLeads(ctv, sales) == SortNewestFirst(Normalised(ctv, sales))
  {
  }

  /** The counts and the revenue of the merged list, by source. */
  lemma MergedTotals(ctv: seq<CtvLeads.CtvLead>, sales: seq<SalesLeads.SalesLead>)
    ensures Count(MergeLeads(ctv, sales), IsCtv) == |ctv|
    ensures Count(MergeLeads(ctv, sales), IsSales) == |sales|
    ensures Count(MergeLeads(ctv, sales), IsConverted) == Count(sales, SalesLeads.IsWon)
    ensures Sum(MergeLeads(ctv, sales), Revenue) == Sum(sales, SalesLeads.Revenue)
  {
    var n := Normalised(ctv, sales);
    MergeIsSorted(ctv, sales);
    SortKeepsCount(n, IsCtv);
    SortKeepsCount(n, IsSales);
    SortKeepsCount(n, IsConverted);
    SortKeepsSum(n, Revenue);
    SourceCounts(ctv, sales);
    SourceSums(ctv, sales);
  }

  /** `getAdminLeadStats`: the statistics of what the two stores load,
      the latest leads being the head of `getAdminLeads`. */
  function GetAdminLeadStats(ctvSlot: CtvLeads.Slot, salesSlot: SalesLeads.Slot): (r: AdminLeadStats)
    ensures r.totalLeads == r.totalCtvLeads + r.totalSalesLeads
    ensures r.totalCtvLeads == |CtvLeads.LoadLeads(ctvSlot)|
    ensures r.totalSalesLeads == |SalesLeads.LoadSalesLeads(salesSlot)|
    ensures r.totalEstimatedRevenue == Sum(SalesLeads.LoadSalesLeads(salesSlot), SalesLeads.Revenue)
    ensures r.convertedLeads == Count(SalesLeads.LoadSalesLeads(salesSlot), SalesLeads.IsWon)
    ensures |r.latestLeads| == if r.totalLeads < LATEST_COUNT then r.totalLeads else LATEST_COUNT
    ensures r.latestLeads == GetAdminLeads(ctvSlot, salesSlot)[..|r.latestLeads|]
    ensures NoneOmittedIsNewer(r.latestLeads, GetAdminLeads(ctvSlot, salesSlot))
  {
    AdminLeadStatsOf(CtvLeads.LoadLeads(ctvSlot), SalesLeads.LoadSalesLeads(salesSlot))
  }

  lemma SourceCounts(ctv: seq<CtvLeads.CtvLead>, sales: seq<SalesLeads.SalesLead>)
    ensures Count(Normalised(ctv, sales), IsCtv) == |ctv|
    ensures Count(Normalised(ctv, sales), IsSales) == |sales|
    ensures Count(Normalised(ctv, sales), IsConverted) == Count(sales, SalesLeads.IsWon)
  {
    var c, s := MapCtv(ctv), MapSales(sales);
    FilterAppend(c, s, IsCtv);
    FilterAppend(c, s, IsSales);
    FilterAppend(c, s, IsConverted);
    FilterAll(c, IsCtv);
    FilterNone(s, IsCtv);
    FilterNone(c, IsSales);
    FilterAll(s, IsSales);
    FilterNone(c, IsConverted);
    ConvertedAreWon(sales);
  }

  lemma {:induction false} ConvertedAreWon(sales: seq<SalesLeads.SalesLead>)
    ensures Count(MapSales(sales), IsConverted) == Count(sales, SalesLeads.IsWon)
  {
    if |sales| > 0 {
      ConvertedAreWon(sales[1..]);
      assert MapSales(sales)[1..] == MapSales(sales[1..]);
    }
  }

  lemma SourceSums(ctv: seq<CtvLeads.CtvLead>, sales: seq<SalesLeads.SalesLead>)
    ensures Sum(Normalised(ctv, sales), Revenue) == Sum(sales, SalesLeads.Revenue)
  {
    SumAppend(MapCtv(ctv), MapSales(sales), Revenue);
    SumZero(MapCtv(ctv), Revenue);
    SalesRevenueCarried(sales);
  }

  lemma {:induction false} SalesRevenueCarried(sales: seq<SalesLeads.SalesLead>)
    ensures Sum(MapSales(sales), Revenue) == Sum(sales, SalesLeads.Revenue)
  {
    if |sales| > 0 {
      SalesRevenueCarried(sales[1..]);
      assert MapSales(sales)[1..] == MapSales(sales[1..]);
    }
  }
}
