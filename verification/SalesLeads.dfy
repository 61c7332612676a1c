/** The Sales role's lead funnel: one storage slot of leads with a
    five-state status, a seed list shown until the first save, and the
    dashboard statistics. */
module SalesLeads {
  import opened Wrappers
  import opened JsStrings
  import opened Seqs

  datatype Status = New | Contacted | InProgress | Won | Lost

  /** The status as the stored and displayed text. */
  function StatusName(s: Status): string
  {
    match s
    case New => "NEW"
    case Contacted => "CONTACTED"
    case InProgress => "IN_PROGRESS"
    case Won => "WON"
    case Lost => "LOST"
  }

  /** Different statuses are stored as different texts. */
  lemma StatusNameInjective(a: Status, b: Status)
    requires StatusName(a) == StatusName(b)
    ensures a == b
  {
  }

  /** A Sales lead; `createdAt` is a millisecond timestamp and
      `estimatedRevenue` integer VND. */
  datatype SalesLead = SalesLead(
    id: string,
    storeName: string,
    contactName: string,
    phone: string,
    area: string,
    leadType: string,
    status: Status,
    estimatedRevenue: int,
    note: Option<string>,
    email: Option<string>,
    address: Option<string>,
    createdAt: int)

  /** What the new-lead form supplies; the status may be missing. */
  datatype SalesLeadInput = SalesLeadInput(
    storeName: string,
    contactName: string,
    phone: string,
    area: string,
    leadType: string,
    status: Option<Status>,
    estimatedRevenue: int,
    note: Option<string>,
    email: Option<string>,
    address: Option<string>)

  /** The storage slot: None when absent, unparsable or not a list. */
  type Slot = Option<seq<SalesLead>>

  predicate UniqueIds(leads: seq<SalesLead>)
  {
    forall i, j :: 0 <= i < j < |leads| ==> leads[i].id != leads[j].id
  }

  /** The five sample leads shown while nothing is stored. */
  function DefaultSalesLeads(): seq<SalesLead>
  {
    [ SalesLead("1", "Siêu thị Mini Mart Plus", "Anh Tuấn", "0901234567", "Quận 1, TP.HCM", "Mini mart",
                InProgress, 15000000, Some("Đang đàm phán hợp đồng dài hạn"), None, None, 1732752000000),
      SalesLead("2", "NPP Hoàng Gia", "Chị Lan", "0912345678", "Bình Dương", "NPP",
                Won, 50000000, Some("Đã ký hợp đồng 6 tháng"), None, None, 1732492800000),
      SalesLead("3", "Tạp hóa Phương Nam", "Anh Minh", "0923456789", "Quận 3, TP.HCM", "Tạp hóa",
                New, 8000000, Some("Mới tiếp cận, chưa liên hệ"), None, None, 1732838400000),
      SalesLead("4", "Đại lý Minh Khang", "Chị Hương", "0934567890", "Đồng Nai", "Đại lý",
                Contacted, 25000000, Some("Đã gọi điện, hẹn gặp tuần sau"), None, None, 1732665600000),
      SalesLead("5", "Siêu thị Sài Gòn Co.op", "Anh Đức", "0945678901", "Quận 7, TP.HCM", "Siêu thị",
                Lost, 30000000, Some("Đã chọn nhà cung cấp khác"), None, None, 1732060800000) ]
  }

  /** `loadSalesLeads`: the stored list, or the seed list when the slot is
      absent or does not hold a list. */
  function LoadSalesLeads(slot: Slot): (leads: seq<SalesLead>)
    ensures slot.None? ==> |leads| == 5 && UniqueIds(leads)
    ensures slot.Some? ==> leads == slot.value
  {
    match slot
    case None => DefaultSalesLeads()
    case Some(stored) => stored
  }

  function SaveSalesLeads(leads: seq<SalesLead>): (slot: Slot)
    ensures LoadSalesLeads(slot) == leads
  {
    Some(leads)
  }

  /** `addSalesLead`: one lead built from the input, stamped with the
      clock `now` (its decimal text is the id), put before the previous
      leads. A missing status becomes NEW. */
  function AddSalesLead(slot: Slot, input: SalesLeadInput, now: nat): (r: seq<SalesLead>)
    ensures |r| == |LoadSalesLeads(slot)| + 1 && r[1..] == LoadSalesLeads(slot)
    ensures r[0].id == NatToString(now) && r[0].createdAt == now
    ensures r[0].status == (if input.status.Some? then input.status.value else New)
    ensures && r[0].storeName == input.storeName && r[0].contactName == input.contactName
            && r[0].phone == input.phone && r[0].area == input.area && r[0].leadType == input.leadType
            && r[0].estimatedRevenue == input.estimatedRevenue && r[0].note == input.note
            && r[0].email == input.email && r[0].address == input.address
  {
    var lead := SalesLead(NatToString(now), input.storeName, input.contactName, input.phone, input.area,
                          input.leadType, input.status.GetOr(New), input.estimatedRevenue, input.note,
                          input.email, input.address, now);
    [lead] + LoadSalesLeads(slot)
  }

  /** `updateSalesLeadStatus`: only the status of leads with the given id
      changes; an unknown id changes nothing. */
  function UpdateSalesLeadStatus(slot: Slot, id: string, status: Status): (r: seq<SalesLead>)
    ensures |r| == |LoadSalesLeads(slot)|
    ensures forall i :: 0 <= i < |r| ==> r[i] == LoadSalesLeads(slot)[i].(status := r[i].status)
    ensures forall i :: 0 <= i < |r| ==>
      r[i].status == if LoadSalesLeads(slot)[i].id == id then status else LoadSalesLeads(slot)[i].status
    ensures (forall i :: 0 <= i < |LoadSalesLeads(slot)| ==> LoadSalesLeads(slot)[i].id != id) ==>
      r == LoadSalesLeads(slot)
  {
    var leads := LoadSalesLeads(slot);
    seq(|leads|, i requires 0 <= i < |leads| =>
      if leads[i].id == id then leads[i].(status := status) else leads[i])
  }

  // ---------------------------------------------------------- statistics

  datatype SalesStats = SalesStats(total: nat, inProgress: nat, won: nat, estimatedRevenue: int)

  predicate Working(l: SalesLead)
  {
    l.status == Contacted || l.status == InProgress
  }

  predicate IsWon(l: SalesLead)
  {
    l.status == Won
  }

  predicate IsLost(l: SalesLead)
  {
    l.status == Lost
  }

  predicate NotLost(l: SalesLead)
  {
    l.status != Lost
  }

  function Revenue(l: SalesLead): int
  {
    l.estimatedRevenue
  }

  /** `getSalesStats`. "In progress" is CONTACTED or IN_PROGRESS, so it
      and "won" never overlap; the revenue estimate sums every lead, lost
      ones included. */
  function GetSalesStats(leads: seq<SalesLead>): (r: SalesStats)
    ensures r.total == |leads|
    ensures r.inProgress + r.won <= r.total
    ensures r.inProgress == Count(leads, Working) && r.won == Count(leads, IsWon)
    ensures r.estimatedRevenue == Sum(Filter(leads, NotLost), Revenue) + Sum(Filter(leads, IsLost), Revenue)
  {
    CountDisjoint(leads, Working, IsWon);
    SumSplit(leads, NotLost, IsLost, Revenue);
    SalesStats(|leads|, Count(leads, Working), Count(leads, IsWon), Sum(leads, Revenue))
  }

  // --------------------------------------------------------------- lemmas

  /** The seed reads as five leads: two in progress, one won, and an
      estimate of 128 000 000 VND. */
  lemma DefaultSalesStats()
    ensures GetSalesStats(LoadSalesLeads(None)) == SalesStats(5, 2, 1, 128000000)
  {
    var d := DefaultSalesLeads();
    assert d[0].status == InProgress && d[1].status == Won && d[2].status == New;
    assert d[3].status == Contacted && d[4].status == Lost;
    assert d[0].estimatedRevenue == 15000000 && d[1].estimatedRevenue == 50000000;
    assert d[2].estimatedRevenue == 8000000 && d[3].estimatedRevenue == 25000000;
    assert d[4].estimatedRevenue == 30000000;
    SeedShape(d);
  }

  /** The seed's statistics depend only on its statuses and estimates. */
  lemma SeedShape(d: seq<SalesLead>)
    requires |d| == 5
    requires d[0].status == InProgress && d[1].status == Won && d[2].status == New
    requires d[3].status == Contacted && d[4].status == Lost
    requires d[0].estimatedRevenue == 15000000 && d[1].estimatedRevenue == 50000000
    requires d[2].estimatedRevenue == 8000000 && d[3].estimatedRevenue == 25000000
    requires d[4].estimatedRevenue == 30000000
    ensures GetSalesStats(d) == SalesStats(5, 2, 1, 128000000)
  {
    assert d[5..] == [];
    SeedStep(d, 4);
    SeedStep(d, 3);
    SeedStep(d, 2);
    SeedStep(d, 1);
    SeedStep(d, 0);
    assert d[0..] == d;
  }

  /** One step along the seed list from the back: counting and summing a
      suffix from its head. */
  lemma SeedStep(d: seq<SalesLead>, k: nat)
    requires k < |d|
    ensures Count(d[k..], Working) == (if Working(d[k]) then 1 else 0) + Count(d[k + 1..], Working)
    ensures Count(d[k..], IsWon) == (if IsWon(d[k]) then 1 else 0) + Count(d[k + 1..], IsWon)
    ensures Sum(d[k..], Revenue) == d[k].estimatedRevenue + Sum(d[k + 1..], Revenue)
  {
    assert d[k..] == [d[k]] + d[k + 1..];
    CountCons(d[k], d[k + 1..], Working);
    CountCons(d[k], d[k + 1..], IsWon);
    assert d[k..][1..] == d[k + 1..];
  }

  /** Adding a lead adds one to the total and its estimate to the revenue. */
  lemma AddSalesLeadStats(slot: Slot, input: SalesLeadInput, now: nat)
    ensures GetSalesStats(AddSalesLead(slot, input, now)).total == GetSalesStats(LoadSalesLeads(slot)).total + 1
    ensures GetSalesStats(AddSalesLead(slot, input, now)).estimatedRevenue
         == GetSalesStats(LoadSalesLeads(slot)).estimatedRevenue + input.estimatedRevenue
  {
    var r := AddSalesLead(slot, input, now);
    assert r == [r[0]] + LoadSalesLeads(slot);
  }

  /** A status change moves no money: total and revenue estimate stay. */
  lemma {:induction false} UpdateKeepsRevenue(slot: Slot, id: string, status: Status)
    ensures GetSalesStats(UpdateSalesLeadStatus(slot, id, status)).total == GetSalesStats(LoadSalesLeads(slot)).total
    ensures GetSalesStats(UpdateSalesLeadStatus(slot, id, status)).estimatedRevenue
         == GetSalesStats(LoadSalesLeads(slot)).estimatedRevenue
  {
    var r := UpdateSalesLeadStatus(slot, id, status);
    SameRevenue(r, LoadSalesLeads(slot));
  }

  lemma {:induction false} SameRevenue(a: seq<SalesLead>, b: seq<SalesLead>)
    requires |a| == |b| && forall i :: 0 <= i < |a| ==> a[i].estimatedRevenue == b[i].estimatedRevenue
    ensures Sum(a, Revenue) == Sum(b, Revenue)
  {
    if |a| > 0 {
      SameRevenue(a[1..], b[1..]);
    }
  }

  /** Adding keeps ids unique as long as the clock's text is not an id yet. */
  lemma AddSalesLeadKeepsIdsUnique(slot: Slot, input: SalesLeadInput, now: nat)
    requires UniqueIds(LoadSalesLeads(slot))
    requires forall i :: 0 <= i < |LoadSalesLeads(slot)| ==> LoadSalesLeads(slot)[i].id != NatToString(now)
    ensures UniqueIds(AddSalesLead(slot, input, now))
  {
    var r := AddSalesLead(slot, input, now);
    forall i, j | 0 <= i < j < |r|
      ensures r[i].id != r[j].id
    {
      assert r[j] == LoadSalesLeads(slot)[j - 1];
      if i > 0 {
        assert r[i] == LoadSalesLeads(slot)[i - 1];
      }
    }
  }
}
