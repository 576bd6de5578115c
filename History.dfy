/** The medical history screen: the list of past outpatient visits, its
    keyword search and department filter, deleting a visit, and the list of
    department buttons with the department count derived from it. */
module MedicalHistory {
  import Lists
  import Text
  import opened Shared

  /** A past visit (`interface MedicalVisit`). */
  datatype Visit = Visit(
    id: string, date: string, time: string, doctor: string, department: string,
    hospital: string, diagnosis: string, treatmentPlan: string, notes: Option<string>)

  /** The department filter's sentinel, which is also the first button. */
  const AllDepartments := "all"

  /** The search half of the filter: doctor, department, hospital or diagnosis
      contains the keyword, ignoring case. */
  predicate MatchesSearch(v: Visit, keyword: string) {
    || Text.ContainsIgnoringCase(v.doctor, keyword)
    || Text.ContainsIgnoringCase(v.department, keyword)
    || Text.ContainsIgnoringCase(v.hospital, keyword)
    || Text.ContainsIgnoringCase(v.diagnosis, keyword)
  }

  /** The department half of the filter. */
  predicate MatchesDepartment(v: Visit, departmentFilter: string) {
    departmentFilter == AllDepartments || v.department == departmentFilter
  }

  /** The test `filteredVisits` applies to each visit. */
  function Shows(keyword: string, departmentFilter: string): Visit -> bool {
    (v: Visit) => MatchesSearch(v, keyword) && MatchesDepartment(v, departmentFilter)
  }

  /** `filteredVisits`: exactly the visits that pass both the search and the
      department test, in list order, each as often as it occurs. */
  function FilterVisits(visits: seq<Visit>, keyword: string, departmentFilter: string): (r: seq<Visit>)
    ensures Lists.IsSubsequence(r, visits)
    ensures forall x :: multiset(r)[x]
                     == if MatchesSearch(x, keyword) && MatchesDepartment(x, departmentFilter)
                        then multiset(visits)[x] else 0
    ensures forall i :: 0 <= i < |r| ==> MatchesSearch(r[i], keyword) && MatchesDepartment(r[i], departmentFilter)
  {
    Lists.Filter(visits, Shows(keyword, departmentFilter))
  }

  /** With an empty search box and `'all'` selected every visit is listed. */
  lemma EmptySearchShowsAll(visits: seq<Visit>)
    ensures FilterVisits(visits, "", AllDepartments) == visits
  {
    forall i | 0 <= i < |visits| ensures Shows("", AllDepartments)(visits[i]) {
      Text.ContainsIgnoringCaseProperties(visits[i].doctor, "");
    }
    Lists.FilterKeepsAll(visits, Shows("", AllDepartments));
  }

  /** The test `handleDeleteVisit` keeps a visit by. */
  function KeepOthers(id: string): Visit -> bool {
    (v: Visit) => v.id != id
  }

  /** `handleDeleteVisit`: every visit with `id` goes, every other one stays,
      in order and as often as it occurred. */
  function RemoveVisit(visits: seq<Visit>, id: string): (r: seq<Visit>)
    ensures Lists.IsSubsequence(r, visits)
    ensures forall i :: 0 <= i < |r| ==> r[i].id != id
    ensures forall x: Visit :: x.id != id ==> multiset(r)[x] == multiset(visits)[x]
  {
    Lists.Filter(visits, KeepOthers(id))
  }

  /** Deleting an id no visit has changes nothing. */
  lemma RemoveUnknownId(visits: seq<Visit>, id: string)
    requires forall i :: 0 <= i < |visits| ==> visits[i].id != id
    ensures RemoveVisit(visits, id) == visits
  {
    Lists.FilterKeepsAll(visits, KeepOthers(id));
  }

  predicate NoDuplicates(xs: seq<string>) {
    forall i, j :: 0 <= i < j < |xs| ==> xs[i] != xs[j]
  }

  /** The position where `x` first occurs in `xs`. */
  function FirstIndex(xs: seq<string>, x: string): (i: nat)
    requires x in xs
    ensures i < |xs| && xs[i] == x && x !in xs[..i]
  {
    if xs[0] == x then 0 else FirstIndex(xs[1..], x) + 1
  }

  /** A first occurrence inside a prefix is the first occurrence in the whole. */
  lemma FirstIndexInPrefix(xs: seq<string>, n: nat, x: string)
    requires n <= |xs| && x in xs[..n]
    ensures FirstIndex(xs, x) == FirstIndex(xs[..n], x)
  {
  }

  /** `Array.from(new Set(xs))`: each string of `xs` once, in order of its
      first occurrence, and nothing else. */
  function Distinct(xs: seq<string>): (r: seq<string>)
    ensures NoDuplicates(r)
    ensures forall x :: x in r <==> x in xs
    ensures forall i, j :: 0 <= i < j < |r| ==> FirstIndex(xs, r[i]) < FirstIndex(xs, r[j])
    decreases |xs|
  {
    if xs == [] then []
    else
      var init := xs[..|xs| - 1];
      var last := xs[|xs| - 1];
      var rest := Distinct(init);
      assert xs == init + [last];
      forall x | x in rest ensures FirstIndex(xs, x) == FirstIndex(init, x) {
        FirstIndexInPrefix(xs, |xs| - 1, x);
      }
      if last in rest then rest
      else
        assert FirstIndex(xs, last) == |xs| - 1;
        rest + [last]
  }

  /** The visits' departments, in list order (`visits.map(v => v.department)`). */
  function DepartmentsOf(visits: seq<Visit>): (r: seq<string>)
    ensures |r| == |visits| && forall i :: 0 <= i < |visits| ==> r[i] == visits[i].department
  {
    seq(|visits|, i requires 0 <= i < |visits| => visits[i].department)
  }

  /** `departments`: the `'all'` button followed by one button per department,
      in order of first appearance. */
  function Departments(visits: seq<Visit>): (r: seq<string>)
    ensures |r| >= 1 && r[0] == AllDepartments
    ensures NoDuplicates(r[1..])
    ensures forall d :: d in r[1..] <==> exists i :: 0 <= i < |visits| && visits[i].department == d
    ensures r[1..] == Distinct(DepartmentsOf(visits))
  {
    var r := [AllDepartments] + Distinct(DepartmentsOf(visits));
    assert r[1..] == Distinct(DepartmentsOf(visits));
    r
  }

  /** Every visit's department has a button. */
  lemma EveryDepartmentListed(visits: seq<Visit>)
    ensures forall i :: 0 <= i < |visits| ==> visits[i].department in Departments(visits)
  {
    var r := Departments(visits);
    forall i | 0 <= i < |visits| ensures visits[i].department in r {
      assert visits[i].department in r[1..];
    }
  }

  /** Distinct strings number as many as the set they make up. */
  lemma {:induction false} DistinctCardinality(xs: seq<string>)
    requires NoDuplicates(xs)
    ensures |set x | x in xs| == |xs|
  {
    if xs != [] {
      var tail := xs[1..];
      DistinctCardinality(tail);
      assert (set x | x in xs) == {xs[0]} + (set x | x in tail);
      assert xs[0] !in tail;
    }
  }

  /** The department-count card: the number of buttons less the `'all'` one is
      the number of different departments among the visits. */
  lemma DepartmentCount(visits: seq<Visit>)
    ensures |Departments(visits)| - 1 == |set i | 0 <= i < |visits| :: visits[i].department|
  {
    var r := Departments(visits);
    DistinctCardinality(r[1..]);
    assert (set x | x in r[1..]) == (set i | 0 <= i < |visits| :: visits[i].department);
  }

  /** When no department is itself called `'all'`, the sentinel button occurs
      exactly once. */
  lemma AllButtonOnce(visits: seq<Visit>)
    requires forall i :: 0 <= i < |visits| ==> visits[i].department != AllDepartments
    ensures forall k :: 0 <= k < |Departments(visits)| && Departments(visits)[k] == AllDepartments ==> k == 0
  {
    var r := Departments(visits);
    forall k | 0 < k < |r| ensures r[k] != AllDepartments {
      assert r[k] == r[1..][k - 1];
      assert r[k] in r[1..];
      var i :| 0 <= i < |visits| && visits[i].department == r[k];
    }
  }

  /** Picking a department's button with the search box empty lists at least
      the visit it came from. */
  lemma DepartmentButtonNeverEmpty(visits: seq<Visit>, d: string)
    requires d in Departments(visits)[1..]
    ensures FilterVisits(visits, "", d) != []
  {
    var i :| 0 <= i < |visits| && visits[i].department == d;
    Text.ContainsIgnoringCaseProperties(visits[i].doctor, "");
    assert visits[i] in visits;
  }

  /** The screen's state: the visits, the search box and the department filter. */
  class HistoryScreen {
    var medicalVisits: seq<Visit>
    var searchKeyword: string
    var departmentFilter: string

    constructor (initial: seq<Visit>)
      ensures medicalVisits == initial && searchKeyword == "" && departmentFilter == AllDepartments
    {
      medicalVisits := initial;
      searchKeyword := "";
      departmentFilter := AllDepartments;
    }

    /** `handleSearch`: the search box holds what was typed. */
    method Search(keyword: string)
      modifies this`searchKeyword
      ensures searchKeyword == keyword
    {
      searchKeyword := keyword;
    }

    /** `handleDepartmentFilter`. */
    method SelectDepartment(department: string)
      modifies this`departmentFilter
      ensures departmentFilter == department
    {
      departmentFilter := department;
    }

    /** `handleDeleteVisit`, once the deletion is confirmed. */
    method DeleteVisit(id: string)
      modifies this`medicalVisits
      ensures medicalVisits == RemoveVisit(old(medicalVisits), id)
    {
      medicalVisits := RemoveVisit(medicalVisits, id);
    }

    /** The visits listed on screen: every visit while the search box is
        empty and `'all'` is selected, otherwise the matching visits, in list
        order. */
    function Shown(): (r: seq<Visit>)
      reads this
      ensures searchKeyword == "" && departmentFilter == AllDepartments ==> r == medicalVisits
      ensures Lists.IsSubsequence(r, medicalVisits)
      ensures forall i :: 0 <= i < |r| ==>
        MatchesSearch(r[i], searchKeyword) && MatchesDepartment(r[i], departmentFilter)
    {
      EmptySearchShowsAll(medicalVisits);
      FilterVisits(medicalVisits, searchKeyword, departmentFilter)
    }

    /** The department buttons above the list: `'all'` first, then one per
        department of the visits, each once. */
    function DepartmentButtons(): (r: seq<string>)
      reads this
      ensures |r| >= 1 && r[0] == AllDepartments && NoDuplicates(r[1..])
      ensures forall i :: 0 <= i < |medicalVisits| ==> medicalVisits[i].department in r
    {
      EveryDepartmentListed(medicalVisits);
      Departments(medicalVisits)
    }
  }
}
