/** The medication inventory screen: the stock list, its keyword search and
    status filter, deleting an item, the status labels, the empty-list message
    and the counts shown below the list. */
module MedicationInventory {
  import Lists
  import Text
  import opened Shared

  /** How the stock of an item stands; the screen stores it, it does not derive it. */
  datatype StockStatus = Normal | Low | Expired

  /** An item in stock (`interface Medication`). */
  datatype Medication = Medication(
    id: string, name: string, dosageForm: string, dosage: string,
    quantity: int, unit: string, expiryDate: string, notes: Option<string>,
    status: StockStatus)

  /** The status filter: the sentinel `'all'` or one status. */
  datatype StatusFilter = All | Only(status: StockStatus)

  /** The search half of the filter: the name or the dosage form contains the
      keyword, ignoring case. */
  predicate MatchesSearch(m: Medication, keyword: string) {
    Text.ContainsIgnoringCase(m.name, keyword) || Text.ContainsIgnoringCase(m.dosageForm, keyword)
  }

  /** The status half of the filter. */
  predicate MatchesStatus(m: Medication, f: StatusFilter) {
    f.All? || m.status == f.status
  }

  /** The test `filteredMedications` applies to each item. */
  function Shows(keyword: string, f: StatusFilter): Medication -> bool {
    (m: Medication) => MatchesSearch(m, keyword) && MatchesStatus(m, f)
  }

  /** `filteredMedications`: exactly the items that pass both the search and
      the status test, in list order, each as often as it occurs. */
  function FilterMedications(medications: seq<Medication>, keyword: string, f: StatusFilter): (r: seq<Medication>)
    ensures Lists.IsSubsequence(r, medications)
    ensures forall x :: multiset(r)[x]
                     == if MatchesSearch(x, keyword) && MatchesStatus(x, f) then multiset(medications)[x] else 0
    ensures forall i :: 0 <= i < |r| ==> MatchesSearch(r[i], keyword) && MatchesStatus(r[i], f)
  {
    Lists.Filter(medications, Shows(keyword, f))
  }

  /** With an empty search box and `'all'` selected the whole inventory is listed. */
  lemma EmptySearchShowsAll(medications: seq<Medication>)
    ensures FilterMedications(medications, "", All) == medications
  {
    forall i | 0 <= i < |medications| ensures Shows("", All)(medications[i]) {
      Text.ContainsIgnoringCaseProperties(medications[i].name, "");
    }
    Lists.FilterKeepsAll(medications, Shows("", All));
  }

  /** Filtering the listed items again by the same keyword and status lists
      the same items. */
  lemma FilterMedicationsIdempotent(medications: seq<Medication>, keyword: string, f: StatusFilter)
    ensures FilterMedications(FilterMedications(medications, keyword, f), keyword, f)
         == FilterMedications(medications, keyword, f)
  {
    Lists.FilterIdempotent(medications, Shows(keyword, f));
  }

  /** The test `handleDeleteMedication` keeps an item by. */
  function KeepOthers(id: string): Medication -> bool {
    (m: Medication) => m.id != id
  }

  /** `handleDeleteMedication`: every item with `id` goes, every other one
      stays, in order and as often as it occurred. */
  function RemoveMedication(medications: seq<Medication>, id: string): (r: seq<Medication>)
    ensures Lists.IsSubsequence(r, medications)
    ensures forall i :: 0 <= i < |r| ==> r[i].id != id
    ensures forall x: Medication :: x.id != id ==> multiset(r)[x] == multiset(medications)[x]
  {
    Lists.Filter(medications, KeepOthers(id))
  }

  /** Deleting an id no item has changes nothing. */
  lemma RemoveUnknownId(medications: seq<Medication>, id: string)
    requires forall i :: 0 <= i < |medications| ==> medications[i].id != id
    ensures RemoveMedication(medications, id) == medications
  {
    Lists.FilterKeepsAll(medications, KeepOthers(id));
  }

  /** The text `getStatusLabel` shows for a status string. */
  function StatusLabel(status: string): (text: string)
    ensures text == "未知" <==> status != "normal" && status != "low" && status != "expired"
  {
    match status
    case "normal" => "充足"
    case "low" => "不足"
    case "expired" => "已过期"
    case _ => "未知"
  }

  /** The string a status has in the source's union type. */
  function StatusName(status: StockStatus): string {
    match status
    case Normal => "normal"
    case Low => "low"
    case Expired => "expired"
  }

  /** Every status gets a label of its own, none of them the unknown one. */
  lemma StatusLabelsDistinct(a: StockStatus, b: StockStatus)
    ensures StatusLabel(StatusName(a)) != "未知"
    ensures StatusLabel(StatusName(a)) == StatusLabel(StatusName(b)) <==> a == b
  {
  }

  const NoMatchMessage := "没有找到匹配的药物"
  const EmptyInventoryMessage := "药物库存为空"

  /** The message shown when nothing is listed: "no match" whenever something
      has been typed into the search box, "inventory empty" otherwise. */
  function EmptyStateMessage(keyword: string): (text: string)
    ensures text == NoMatchMessage <==> keyword != ""
    ensures text == EmptyInventoryMessage <==> keyword == ""
  {
    if keyword != "" then NoMatchMessage else EmptyInventoryMessage
  }

  /** With nothing typed and `'all'` selected, "inventory empty" is shown
      only when the inventory really is empty. */
  lemma EmptyInventoryMessageTruthful(medications: seq<Medication>)
    requires FilterMedications(medications, "", All) == []
    ensures medications == []
  {
    EmptySearchShowsAll(medications);
  }

  /** The test a status card counts by. */
  function HasStatus(status: StockStatus): Medication -> bool {
    (m: Medication) => m.status == status
  }

  /** The count on a status card: the length of the status filter's result
      over the whole inventory. */
  function StatusCount(medications: seq<Medication>, status: StockStatus): (n: nat)
    ensures n <= |medications|
    ensures n == 0 <==> forall i :: 0 <= i < |medications| ==> medications[i].status != status
    ensures n == |medications| <==> forall i :: 0 <= i < |medications| ==> medications[i].status == status
  {
    Lists.FilterLength(medications, HasStatus(status));
    |Lists.Filter(medications, HasStatus(status))|
  }

  /** Every item has exactly one status, so the three counts add up to the
      total; in particular low plus expired never exceeds it. */
  lemma {:induction false} StatusCountsPartition(medications: seq<Medication>)
    ensures StatusCount(medications, Normal) + StatusCount(medications, Low)
          + StatusCount(medications, Expired) == |medications|
    ensures StatusCount(medications, Low) + StatusCount(medications, Expired) <= |medications|
  {
    if medications != [] {
      StatusCountsPartition(medications[1..]);
      Lists.FilterLengthStep(medications, HasStatus(Normal));
      Lists.FilterLengthStep(medications, HasStatus(Low));
      Lists.FilterLengthStep(medications, HasStatus(Expired));
    }
  }

  /** The screen's state: the inventory, the search box and the status filter. */
  class InventoryScreen {
    var medications: seq<Medication>
    var searchKeyword: string
    var statusFilter: StatusFilter

    constructor (initial: seq<Medication>)
      ensures medications == initial && searchKeyword == "" && statusFilter == All
    {
      medications := initial;
      searchKeyword := "";
      statusFilter := All;
    }

    /** `handleSearch`: the search box holds what was typed. */
    method Search(keyword: string)
      modifies this`searchKeyword
      ensures searchKeyword == keyword
    {
      searchKeyword := keyword;
    }

    /** `handleStatusFilter`. */
    method SelectStatusFilter(f: StatusFilter)
      modifies this`statusFilter
      ensures statusFilter == f
    {
      statusFilter := f;
    }

    /** `handleDeleteMedication`, once the deletion is confirmed. */
    method DeleteMedication(id: string)
      modifies this`medications
      ensures medications == RemoveMedication(old(medications), id)
    {
      medications := RemoveMedication(medications, id);
    }

    /** The items listed on screen: the whole inventory while the search box
        is empty and `'all'` is selected, otherwise the matching items, in
        list order. */
    function Shown(): (r: seq<Medication>)
      reads this
      ensures searchKeyword == "" && statusFilter == All ==> r == medications
      ensures Lists.IsSubsequence(r, medications)
      ensures forall i :: 0 <= i < |r| ==>
        MatchesSearch(r[i], searchKeyword) && MatchesStatus(r[i], statusFilter)
    {
      EmptySearchShowsAll(medications);
      FilterMedications(medications, searchKeyword, statusFilter)
    }

    /** The message in place of the list when it is empty: "no match" exactly
        when something is typed in the search box. */
    function EmptyMessage(): (text: string)
      reads this
      ensures text == NoMatchMessage <==> searchKeyword != ""
      ensures text == EmptyInventoryMessage <==> searchKeyword == ""
    {
      EmptyStateMessage(searchKeyword)
    }
  }
}
