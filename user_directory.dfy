/**
 * The staff directory (components/views/UserDirectory.tsx): the search
 * filter over the employee list, and the two lookups each table row makes,
 * the clinic's name and the one-letter badge of each assigned system.
 */
module UserDirectory {
  import opened Types
  import opened Lists
  import Strings

  /** The search term occurs in the employee's last name, first name or email. */
  predicate Matches(e: Employee, term: string) {
    Strings.Includes(e.lastName, term) || Strings.Includes(e.firstName, term) || Strings.Includes(e.email, term)
  }

  /**
   * `filteredEmployees`: the employees matching the term, in their original
   * order.
   */
  function FilterEmployees(employees: seq<Employee>, term: string): (kept: seq<Employee>)
    ensures |kept| <= |employees|
    ensures forall e :: e in kept <==> e in employees && Matches(e, term)
    ensures forall e: Employee :: multiset(kept)[e] == if Matches(e, term) then multiset(employees)[e] else 0
    ensures IsSubsequence(kept, employees)
  {
    if employees == [] then []
    else
      var rest := FilterEmployees(employees[1..], term);
      assert employees == [employees[0]] + employees[1..];
      assert multiset(employees) == multiset{employees[0]} + multiset(employees[1..]);
      if Matches(employees[0], term) then
        var kept := [employees[0]] + rest;
        assert kept[1..] == rest;
        assert multiset(kept) == multiset{employees[0]} + multiset(rest);
        kept
      else
        rest
  }

  /** An empty search box shows every employee. */
  lemma {:induction false} EmptySearchKeepsAll(employees: seq<Employee>)
    ensures FilterEmployees(employees, "") == employees
  {
    if employees != [] {
      Strings.EmptyOccurs(employees[0].lastName);
      EmptySearchKeepsAll(employees[1..]);
    }
  }

  /**
   * Typing more narrows the list: when term `s` occurs inside term `t`,
   * the employees kept for `t` are a subsequence of those kept for `s`.
   */
  lemma {:induction false} NarrowingSearch(employees: seq<Employee>, s: string, t: string)
    requires Strings.Includes(t, s)
    ensures IsSubsequence(FilterEmployees(employees, t), FilterEmployees(employees, s))
  {
    if employees == [] {
    } else {
      var e := employees[0];
      NarrowingSearch(employees[1..], s, t);
      var restS := FilterEmployees(employees[1..], s);
      var restT := FilterEmployees(employees[1..], t);
      if Matches(e, t) {
        if Strings.Includes(e.lastName, t) {
          Strings.OccursTransitive(s, t, e.lastName);
        } else if Strings.Includes(e.firstName, t) {
          Strings.OccursTransitive(s, t, e.firstName);
        } else {
          Strings.OccursTransitive(s, t, e.email);
        }
        assert Matches(e, s);
        assert ([e] + restT)[1..] == restT && ([e] + restS)[1..] == restS;
      } else if Matches(e, s) {
        assert ([e] + restS)[1..] == restS;
        if restT != [] {
          assert IsSubsequence(restT, ([e] + restS)[1..]);
        }
      }
    }
  }

  /** Filtering the filtered list with the same term changes nothing. */
  lemma {:induction false} FilterIdempotent(employees: seq<Employee>, term: string)
    ensures FilterEmployees(FilterEmployees(employees, term), term) == FilterEmployees(employees, term)
  {
    if employees != [] {
      FilterIdempotent(employees[1..], term);
      var rest := FilterEmployees(employees[1..], term);
      if Matches(employees[0], term) {
        assert ([employees[0]] + rest)[1..] == rest;
      }
    }
  }

  /** Clinic `k` is the first one in the list with the given id. */
  ghost predicate IsFirstClinic(clinics: seq<Clinic>, clinicId: string, k: int) {
    0 <= k < |clinics| && clinics[k].id == clinicId && forall j :: 0 <= j < k ==> clinics[j].id != clinicId
  }

  /** The position of the first clinic with the given id (`CLINICS.find`). */
  function FindClinic(clinics: seq<Clinic>, clinicId: string): (k: Option<nat>)
    ensures k.None? ==> forall j :: 0 <= j < |clinics| ==> clinics[j].id != clinicId
    ensures k.Some? ==> IsFirstClinic(clinics, clinicId, k.value)
  {
    if clinics == [] then None
    else if clinics[0].id == clinicId then Some(0)
    else
      match FindClinic(clinics[1..], clinicId)
      case None => None
      case Some(k) => Some(k + 1)
  }

  const UnknownClinic := "不明"

  /**
   * The clinic name shown under the employee's role: the name of the first
   * clinic with the employee's clinic id, or "不明" (unknown) when there is
   * none. Because the source falls back with `||`, an empty name shows as
   * unknown too.
   */
  function ClinicName(clinics: seq<Clinic>, clinicId: string): (name: string)
    ensures (forall j :: 0 <= j < |clinics| ==> clinics[j].id != clinicId) ==> name == UnknownClinic
    ensures forall k :: IsFirstClinic(clinics, clinicId, k) ==>
      name == if clinics[k].name == "" then UnknownClinic else clinics[k].name
    ensures name != ""
  {
    match FindClinic(clinics, clinicId)
    case None => UnknownClinic
    case Some(k) => if clinics[k].name == "" then UnknownClinic else clinics[k].name
  }

  /** System `k` is the first one in the list with the given id. */
  ghost predicate IsFirstSystem(systems: seq<SystemTool>, systemId: string, k: int) {
    0 <= k < |systems| && systems[k].id == systemId && forall j :: 0 <= j < k ==> systems[j].id != systemId
  }

  /** The position of the first system with the given id (`SYSTEMS.find`). */
  function FindSystem(systems: seq<SystemTool>, systemId: string): (k: Option<nat>)
    ensures k.None? ==> forall j :: 0 <= j < |systems| ==> systems[j].id != systemId
    ensures k.Some? ==> IsFirstSystem(systems, systemId, k.value)
  {
    if systems == [] then None
    else if systems[0].id == systemId then Some(0)
    else
      match FindSystem(systems[1..], systemId)
      case None => None
      case Some(k) => Some(k + 1)
  }

  /**
   * The badge of an assigned system: the first character of the first
   * matching system's name, or "?" when no system matches or its name is
   * empty.
   */
  function SystemBadge(systems: seq<SystemTool>, systemId: string): (badge: string)
    ensures |badge| == 1
    ensures (forall j :: 0 <= j < |systems| ==> systems[j].id != systemId) ==> badge == "?"
    ensures forall k :: IsFirstSystem(systems, systemId, k) ==>
      badge == if systems[k].name == "" then "?" else systems[k].name[..1]
  {
    match FindSystem(systems, systemId)
    case None => "?"
    case Some(k) => if systems[k].name == "" then "?" else systems[k].name[..1]
  }
}
