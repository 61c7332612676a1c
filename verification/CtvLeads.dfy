/** The referral partner (CTV) lead list: one storage slot, a three-state
    status, a seed list shown until the first save, and per-status counts. */
module CtvLeads {
  import opened Wrappers
  import opened JsStrings
  import opened Seqs

  datatype Status = New | Contacted | Converted

  /** The status as the stored and displayed text. */
  function StatusName(s: Status): string
  {
    match s
    case New => "NEW"
    case Contacted => "CONTACTED"
    case Converted => "CONVERTED"
  }

  /** Different statuses are stored as different texts. */
  lemma StatusNameInjective(a: Status, b: Status)
    requires StatusName(a) == StatusName(b)
    ensures a == b
  {
  }

  /** A CTV lead; `createdAt` is a millisecond timestamp. */
  datatype CtvLead = CtvLead(
    id: string,
    storeName: string,
    contactName: string,
    phone: string,
    area: string,
    customerType: string,
    note: Option<string>,
    status: Status,
    createdAt: int)

  datatype NewLeadInput = NewLeadInput(
    storeName: string,
    contactName: string,
    phone: string,
    area: string,
    customerType: string,
    note: Option<string>)

  /** The storage slot: None when absent, unparsable or not a list. */
  type Slot = Option<seq<CtvLead>>

  predicate UniqueIds(leads: seq<CtvLead>)
  {
    forall i, j :: 0 <= i < j < |leads| ==> leads[i].id != leads[j].id
  }

  /** The five sample leads shown while nothing is stored. */
  function DefaultLeads(): seq<CtvLead>
  {
    [ CtvLead("1", "Tạp hóa Ngọc Lan", "Chị Lan", "0912345678", "Hà Đông, Hà Nội", "Tạp hóa",
              Some("Quan tâm sản phẩm nước giải khát"), New, 1732838400000),
      CtvLead("2", "Mini Mart Hương Mai", "Anh Tuấn", "0923456789", "Thanh Xuân, Hà Nội", "Mini mart",
              Some("Đã gọi điện, hẹn gặp tuần sau"), Contacted, 1732665600000),
      CtvLead("3", "Đại lý Hoàng Gia", "Anh Hoàng", "0934567890", "Cầu Giấy, Hà Nội", "Đại lý",
              Some("Đã ký hợp đồng, chuyển sang Sales"), Converted, 1732492800000),
      CtvLead("4", "Tạp hóa Phương Anh", "Chị Phương", "0945678901", "Đống Đa, Hà Nội", "Tạp hóa",
              Some("Gặp trực tiếp tại cửa hàng"), New, 1732752000000),
      CtvLead("5", "NPP Miền Bắc", "Anh Minh", "0956789012", "Long Biên, Hà Nội", "NPP",
              Some("Đang đàm phán điều khoản"), Contacted, 1732579200000) ]
  }

  /** `loadLeads`: the stored list, or the seed list when the slot is
      absent or does not hold a list. */
  function LoadLeads(slot: Slot): (leads: seq<CtvLead>)
    ensures slot.None? ==> |leads| == 5 && UniqueIds(leads)
    ensures slot.Some? ==> leads == slot.value
  {
    match slot
    case None => DefaultLeads()
    case Some(stored) => stored
  }

  function SaveLeads(leads: seq<CtvLead>): (slot: Slot)
    ensures LoadLeads(slot) == leads
  {
    Some(leads)
  }

  /** What `addLead` produces: the new lead and the list it saves. */
  datatype AddedLead = AddedLead(lead: CtvLead, leads: seq<CtvLead>)

  /** `addLead`: a NEW lead from the form input, stamped with the clock
      `now` (its decimal text is the id), put before the previous leads. */
  function AddLead(slot: Slot, input: NewLeadInput, now: nat): (r: AddedLead)
    ensures r.lead.status == New
    ensures r.lead.id == NatToString(now) && r.lead.createdAt == now
    ensures && r.lead.storeName == input.storeName && r.lead.contactName == input.contactName
            && r.lead.phone == input.phone && r.lead.area == input.area
            && r.lead.customerType == input.customerType && r.lead.note == input.note
    ensures |r.leads| == |LoadLeads(slot)| + 1
    ensures r.leads[0] == r.lead && r.leads[1..] == LoadLeads(slot)
  {
    var lead := CtvLead(NatToString(now), input.storeName, input.contactName, input.phone, input.area,
                        input.customerType, input.note, New, now);
    AddedLead(lead, [lead] + LoadLeads(slot))
  }

  /** `updateLeadStatus`: only the status of leads with the given id
      changes; an unknown id changes nothing. */
  function UpdateLeadStatus(slot: Slot, id: string, status: Status): (r: seq<CtvLead>)
    ensures |r| == |LoadLeads(slot)|
    ensures forall i :: 0 <= i < |r| ==> r[i] == LoadLeads(slot)[i].(status := r[i].status)
    ensures forall i :: 0 <= i < |r| ==>
      r[i].status == if LoadLeads(slot)[i].id == id then status else LoadLeads(slot)[i].status
    ensures (forall i :: 0 <= i < |LoadLeads(slot)| ==> LoadLeads(slot)[i].id != id) ==> r == LoadLeads(slot)
  {
    var leads := LoadLeads(slot);
    seq(|leads|, i requires 0 <= i < |leads| =>
      if leads[i].id == id then leads[i].(status := status) else leads[i])
  }

  // ---------------------------------------------------------- statistics

  datatype LeadStats = LeadStats(total: nat, newCount: nat, contactedCount: nat, convertedCount: nat)

  function WithStatus(status: Status): CtvLead -> bool
  {
    (l: CtvLead) => l.status == status
  }

  /** `getLeadStats`: the three status counts split the total, because
      every lead has exactly one of the three statuses. */
  function GetLeadStats(leads: seq<CtvLead>): (r: LeadStats)
    ensures r.total == |leads|
    ensures r.newCount + r.contactedCount + r.convertedCount == r.total
    ensures r.newCount == Count(leads, WithStatus(New)) && r.contactedCount == Count(leads, WithStatus(Contacted))
    ensures r.convertedCount == Count(leads, WithStatus(Converted))
  {
    StatusesPartition(leads);
    LeadStats(|leads|, Count(leads, WithStatus(New)), Count(leads, WithStatus(Contacted)),
              Count(leads, WithStatus(Converted)))
  }

  lemma {:induction false} StatusesPartition(leads: seq<CtvLead>)
    ensures Count(leads, WithStatus(New)) + Count(leads, WithStatus(Contacted))
          + Count(leads, WithStatus(Converted)) == |leads|
  {
    if |leads| > 0 {
      StatusesPartition(leads[1..]);
    }
  }

  // --------------------------------------------------------------- lemmas

  /** The seed reads as two NEW, two CONTACTED and one CONVERTED lead. */
  lemma DefaultLeadStats()
    ensures GetLeadStats(LoadLeads(None)) == LeadStats(5, 2, 2, 1)
  {
    var d := DefaultLeads();
    assert d[1..][1..][1..][1..][1..] == [];
    assert Count(d, WithStatus(New)) == 2;
    assert Count(d, WithStatus(Contacted)) == 2;
    StatusesPartition(d);
  }

  /** Adding a lead adds one to the total and one to the NEW count. */
  lemma AddLeadStats(slot: Slot, input: NewLeadInput, now: nat)
    ensures GetLeadStats(AddLead(slot, input, now).leads).total == GetLeadStats(LoadLeads(slot)).total + 1
    ensures GetLeadStats(AddLead(slot, input, now).leads).newCount == GetLeadStats(LoadLeads(slot)).newCount + 1
    ensures GetLeadStats(AddLead(slot, input, now).leads).convertedCount == GetLeadStats(LoadLeads(slot)).convertedCount
  {
    var r := AddLead(slot, input, now);
    assert r.leads == [r.lead] + LoadLeads(slot);
    CountCons(r.lead, LoadLeads(slot), WithStatus(New));
    CountCons(r.lead, LoadLeads(slot), WithStatus(Converted));
  }

  /** Adding keeps ids unique as long as the clock's text is not an id yet. */
  lemma AddLeadKeepsIdsUnique(slot: Slot, input: NewLeadInput, now: nat)
    requires UniqueIds(LoadLeads(slot))
    requires forall i :: 0 <= i < |LoadLeads(slot)| ==> LoadLeads(slot)[i].id != NatToString(now)
    ensures UniqueIds(AddLead(slot, input, now).leads)
  {
    var r := AddLead(slot, input, now).leads;
    forall i, j | 0 <= i < j < |r|
      ensures r[i].id != r[j].id
    {
      assert r[j] == LoadLeads(slot)[j - 1];
      if i > 0 {
        assert r[i] == LoadLeads(slot)[i - 1];
      }
    }
  }

  /** Changing a lead's status never changes the total. */
  lemma UpdateKeepsTotal(slot: Slot, id: string, status: Status)
    ensures GetLeadStats(UpdateLeadStatus(slot, id, status)).total == GetLeadStats(LoadLeads(slot)).total
  {
  }

  /** With ids unique, a status change moves the one lead with that id
      from the count of its old status to that of the new one; every
      other count stays. */
  lemma UpdateMovesLead(slot: Slot, id: string, status: Status, k: nat, s: Status)
    requires UniqueIds(LoadLeads(slot))
    requires k < |LoadLeads(slot)| && LoadLeads(slot)[k].id == id
    ensures Count(UpdateLeadStatus(slot, id, status), WithStatus(s))
         == Count(LoadLeads(slot), WithStatus(s))
            - (if LoadLeads(slot)[k].status == s then 1 else 0) + (if status == s then 1 else 0)
  {
    var leads := LoadLeads(slot);
    var r := UpdateLeadStatus(slot, id, status);
    assert r == leads[k := leads[k].(status := status)] by {
      forall i | 0 <= i < |r|
        ensures r[i] == leads[k := leads[k].(status := status)][i]
      {
        if i != k {
          assert leads[i].id != id;
        }
      }
    }
    CountUpdate(leads, k, leads[k].(status := status), WithStatus(s));
  }
}
