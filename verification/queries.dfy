/** The finders of JdbcBagger: findProfiles, findProjects and findOrganizations.
    None of their queries has an ORDER BY, so rows come back in whatever order
    the database scans the table; that order is a parameter here. A LIKE pattern
    "name%" is modelled as a prefix test. */
module Queries {
  import opened Wrappers
  import opened Text
  import opened Database

  /** A scan of a table: every id in use, each exactly once. */
  ghost predicate ScansTable<R>(rows: map<int, R>, scan: seq<int>) {
    && Distinct(scan)
    && (forall id :: id in scan <==> id in rows)
  }

  /** The ids of the scanned rows that satisfy a WHERE clause, in scan order. */
  function Select<R>(rows: map<int, R>, scan: seq<int>, keep: R -> bool): (ids: seq<int>)
    requires forall id :: id in scan ==> id in rows
    ensures forall id :: id in ids <==> id in scan && keep(rows[id])
    ensures |ids| <= |scan|
  {
    if scan == [] then []
    else
      var id := scan[0];
      assert id in scan;
      assert id in rows;
      (if keep(rows[id]) then [id] else []) + Select(rows, scan[1..], keep)
  }

  /** No id occurs twice. */
  predicate Distinct(ids: seq<int>) {
    forall i, j :: 0 <= i < j < |ids| ==> ids[i] != ids[j]
  }

  /** A scan visits each id once, so no id is selected twice. */
  lemma {:induction false} SelectDistinct<R>(rows: map<int, R>, scan: seq<int>, keep: R -> bool)
    requires forall id :: id in scan ==> id in rows
    requires Distinct(scan)
    ensures Distinct(Select(rows, scan, keep))
  {
    if scan != [] {
      var rest := scan[1..];
      forall i, j | 0 <= i < j < |rest| ensures rest[i] != rest[j] {
        assert rest[i] == scan[i + 1] && rest[j] == scan[j + 1];
      }
      SelectDistinct(rows, rest, keep);
      var tail := Select(rows, rest, keep);
      var ids := Select(rows, scan, keep);
      assert scan[0] in scan;
      if keep(rows[scan[0]]) {
        assert scan[0] !in tail by {
          forall k | 0 <= k < |rest| ensures rest[k] != scan[0] {
            assert rest[k] == scan[k + 1];
          }
        }
        assert ids == [scan[0]] + tail;
        forall i, j | 0 <= i < j < |ids| ensures ids[i] != ids[j] {
          assert ids[j] == tail[j - 1];
          if i > 0 {
            assert ids[i] == tail[i - 1];
          } else {
            assert ids[j] in tail;
          }
        }
      } else {
        assert ids == tail;
      }
    }
  }

  // ---------------------------------------------------------------------------
  // findProfiles
  // ---------------------------------------------------------------------------

  /** WHERE status='A' AND username=? */
  predicate ActiveFor(row: ProfileRow, name: string) {
    row.status == "A" && row.username == name
  }

  function ProfileIds(ps: seq<Profile>): (ids: seq<int>)
    ensures |ids| == |ps| && forall i :: 0 <= i < |ps| ==> ids[i] == ps[i].id
  {
    if ps == [] then [] else [ps[0].id] + ProfileIds(ps[1..])
  }

  /** loadProfile on each id in turn; the first one that fails ends the call. */
  function LoadProfiles(db: Db, ids: seq<int>): (r: Result<seq<Profile>, Missing>)
    ensures r.Success? <==> forall i :: 0 <= i < |ids| ==> ProfileLoadable(db, ids[i])
    ensures r.Success? ==> |r.value| == |ids| && forall i :: 0 <= i < |ids| ==> r.value[i] == LoadProfile(db, ids[i]).value
    // the error is that of the first id that does not load
    ensures r.Failure? ==>
      (exists i :: 0 <= i < |ids| && LoadProfile(db, ids[i]) == Failure(r.error) &&
         (forall j :: 0 <= j < i ==> ProfileLoadable(db, ids[j])))
  {
    if ids == [] then Success([])
    else
      match LoadProfile(db, ids[0])
      case Failure(e) => Failure(e)
      case Success(p) =>
        match LoadProfiles(db, ids[1..])
        case Failure(e) => Failure(e)
        case Success(ps) => Success([p] + ps)
  }

  /** What a successful LoadProfiles returns: for each id, in order, the profile
      loadProfile returns for it. */
  lemma LoadedProfiles(db: Db, ids: seq<int>)
    requires LoadProfiles(db, ids).Success?
    ensures var ps := LoadProfiles(db, ids).value;
      && ProfileIds(ps) == ids
      && forall i :: 0 <= i < |ps| ==> LoadProfile(db, ps[i].id) == Success(ps[i])
  {
    var ps := LoadProfiles(db, ids).value;
    forall i | 0 <= i < |ps| ensures ps[i].id == ids[i] && LoadProfile(db, ps[i].id) == Success(ps[i]) {
      assert ProfileLoadable(db, ids[i]);
    }
    assert ProfileIds(ps) == ids;
  }

  /** The rows findProfiles selects, in scan order. */
  function ActiveIds(db: Db, name: string, scan: seq<int>): (ids: seq<int>)
    requires ScansTable(db.profile.rows, scan)
    ensures Distinct(ids)
    ensures forall id :: id in ids <==> id in db.profile.rows && ActiveFor(db.profile.rows[id], name)
  {
    SelectDistinct(db.profile.rows, scan, (row: ProfileRow) => ActiveFor(row, name));
    Select(db.profile.rows, scan, (row: ProfileRow) => ActiveFor(row, name))
  }

  /** The profiles loaded for the selected rows carry those rows' columns and all
      their objects. */
  lemma LoadedActiveProfiles(db: Db, name: string, ids: seq<int>)
    requires forall id :: id in ids ==> id in db.profile.rows && ActiveFor(db.profile.rows[id], name)
    requires LoadProfiles(db, ids).Success?
    ensures var ps := LoadProfiles(db, ids).value;
      && ProfileIds(ps) == ids
      && (forall i :: 0 <= i < |ps| ==> LoadProfile(db, ps[i].id) == Success(ps[i]))
      && (forall i :: 0 <= i < |ps| ==>
            && ps[i].status == "A" && ps[i].username == name
            && ps[i].id in db.profile.rows && ProfileColumns(ps[i]) == db.profile.rows[ps[i].id]
            && ps[i].person.Some? && ps[i].contact.Some? && ps[i].project.Some?)
  {
    LoadedProfiles(db, ids);
    var ps := LoadProfiles(db, ids).value;
    forall i | 0 <= i < |ps| ensures ps[i].status == "A" && ps[i].username == name {
      assert ps[i].id == ids[i] && ids[i] in ids;
    }
  }

  /** findProfiles: the active rows for a username, each replaced, in place, by
      its fully loaded profile. */
  function FindProfiles(db: Db, name: string, scan: seq<int>): (r: Result<seq<Profile>, Missing>)
    requires ScansTable(db.profile.rows, scan)
    // fails exactly when some matching row cannot be loaded in full
    ensures r.Success? <==> forall id :: id in db.profile.rows && ActiveFor(db.profile.rows[id], name) ==> ProfileLoadable(db, id)
    // exactly the matching rows, each with its row's columns and every object resolved
    ensures r.Success? ==>
      && (forall id :: id in ProfileIds(r.value) <==> id in db.profile.rows && ActiveFor(db.profile.rows[id], name))
      && (forall i :: 0 <= i < |r.value| ==>
            && r.value[i].status == "A" && r.value[i].username == name
            && r.value[i].id in db.profile.rows && ProfileColumns(r.value[i]) == db.profile.rows[r.value[i].id]
            && r.value[i].person.Some? && r.value[i].contact.Some? && r.value[i].project.Some?)
    // one result per matching row, in the order the query returned the rows, none twice
    ensures r.Success? ==> ProfileIds(r.value) == Select(db.profile.rows, scan, (row: ProfileRow) => ActiveFor(row, name))
    ensures r.Success? ==> Distinct(ProfileIds(r.value))
    // each result is what loadProfile returns for its id
    ensures r.Success? ==> forall i :: 0 <= i < |r.value| ==> LoadProfile(db, r.value[i].id) == Success(r.value[i])
  {
    var ids := ActiveIds(db, name, scan);
    var r := LoadProfiles(db, ids);
    if r.Success? then
      LoadedActiveProfiles(db, name, ids);
      r
    else r
  }

  // ---------------------------------------------------------------------------
  // findProjects
  // ---------------------------------------------------------------------------

  /** loadProject on the project id of each person_projects row in turn. */
  function LoadProjects(db: Db, links: seq<PersonProjectRow>): (r: Result<seq<Project>, Missing>)
    ensures r.Success? <==> forall i :: 0 <= i < |links| ==> links[i].projectId in db.projects.rows
    ensures r.Success? ==> |r.value| == |links| && forall i :: 0 <= i < |links| ==>
      r.value[i].id == links[i].projectId && r.value[i].name == db.projects.rows[links[i].projectId].name
    ensures r.Failure? ==>
      (exists i :: 0 <= i < |links| && r.error == Missing("Project", links[i].projectId) &&
         links[i].projectId !in db.projects.rows && (forall j :: 0 <= j < i ==> links[j].projectId in db.projects.rows))
  {
    if links == [] then Success([])
    else
      match LoadProject(db, links[0].projectId)
      case Failure(e) => Failure(e)
      case Success(p) =>
        match LoadProjects(db, links[1..])
        case Failure(e) => Failure(e)
        case Success(ps) => Success([p] + ps)
  }

  function Rows<R>(rows: map<int, R>, ids: seq<int>): (r: seq<R>)
    requires forall id :: id in ids ==> id in rows
    ensures |r| == |ids| && forall i :: 0 <= i < |ids| ==> ids[i] in rows && r[i] == rows[ids[i]]
  {
    if ids == [] then []
    else
      var id := ids[0];
      assert id in ids;
      assert id in rows;
      [rows[id]] + Rows(rows, ids[1..])
  }

  /** findProjects: the projects a person is linked to, one per person_projects row
      of that person, in the order the query returned the rows. */
  function FindProjects(db: Db, personId: int, scan: seq<int>): (r: Result<seq<Project>, Missing>)
    requires ScansTable(db.personProjects.rows, scan)
    ensures var links := db.personProjects.rows;
      r.Success? <==> forall k :: k in links && links[k].personId == personId ==> links[k].projectId in db.projects.rows
    ensures var links := db.personProjects.rows;
      var ids := Select(links, scan, (row: PersonProjectRow) => row.personId == personId);
      r.Success? ==> |r.value| == |ids| && forall i :: 0 <= i < |ids| ==>
        && links[ids[i]].personId == personId
        && r.value[i].id == links[ids[i]].projectId
        && r.value[i].name == db.projects.rows[r.value[i].id].name
  {
    var ids := Select(db.personProjects.rows, scan, (row: PersonProjectRow) => row.personId == personId);
    var links := Rows(db.personProjects.rows, ids);
    var r := LoadProjects(db, links);
    assert r.Success? <==> forall k :: k in db.personProjects.rows && db.personProjects.rows[k].personId == personId ==> db.personProjects.rows[k].projectId in db.projects.rows by {
      if r.Success? {
        forall k | k in db.personProjects.rows && db.personProjects.rows[k].personId == personId
          ensures db.personProjects.rows[k].projectId in db.projects.rows
        {
          assert k in scan && k in ids;
          var i :| 0 <= i < |ids| && ids[i] == k;
          assert links[i] == db.personProjects.rows[k];
        }
      }
      if forall k :: k in db.personProjects.rows && db.personProjects.rows[k].personId == personId ==> db.personProjects.rows[k].projectId in db.projects.rows {
        forall i | 0 <= i < |links| ensures links[i].projectId in db.projects.rows {
          assert ids[i] in ids;
        }
      }
    }
    r
  }

  // ---------------------------------------------------------------------------
  // findOrganizations
  // ---------------------------------------------------------------------------

  function OrganizationsAt(db: Db, ids: seq<int>): (r: seq<Organization>)
    requires forall id :: id in ids ==> id in db.organization.rows
    ensures |r| == |ids| && forall i :: 0 <= i < |ids| ==> r[i] == LoadOrganization(db, ids[i]).value
  {
    if ids == [] then [] else [LoadOrganization(db, ids[0]).value] + OrganizationsAt(db, ids[1..])
  }

  /** findOrganizations: the organizations whose name starts with the given text, in
      scan order (the query has no ORDER BY). */
  function FindOrganizations(db: Db, name: string, scan: seq<int>): (r: seq<Organization>)
    requires ScansTable(db.organization.rows, scan)
    ensures forall i :: 0 <= i < |r| ==>
      && r[i].id in db.organization.rows && OrganizationColumns(r[i]) == db.organization.rows[r[i].id]
      && HasPrefix(r[i].name, name)
    ensures forall id :: id in db.organization.rows && HasPrefix(db.organization.rows[id].name, name) ==>
      exists i :: 0 <= i < |r| && r[i].id == id
    // one result per matching row, in the order the query returned the rows, none twice
    ensures var ids := Select(db.organization.rows, scan, (row: OrganizationRow) => HasPrefix(row.name, name));
      |r| == |ids| && forall i :: 0 <= i < |r| ==> r[i].id == ids[i]
    ensures forall i, j :: 0 <= i < j < |r| ==> r[i].id != r[j].id
  {
    var ids := Select(db.organization.rows, scan, (row: OrganizationRow) => HasPrefix(row.name, name));
    SelectDistinct(db.organization.rows, scan, (row: OrganizationRow) => HasPrefix(row.name, name));
    var r := OrganizationsAt(db, ids);
    assert forall i :: 0 <= i < |ids| ==> r[i].id == ids[i];
    r
  }

  /** Names in ascending order. */
  predicate SortedByName(os: seq<Organization>) {
    forall i, j :: 0 <= i < j < |os| ==> !StrictlyBefore(os[j].name, os[i].name)
  }

  /** String.compareTo(a, b) < 0: lexicographic order on chars. */
  predicate StrictlyBefore(a: string, b: string) {
    if a == [] then b != []
    else if b == [] then false
    else a[0] < b[0] || (a[0] == b[0] && StrictlyBefore(a[1..], b[1..]))
  }

  /** Two organizations whose names start with "Lib", stored "Libb" first. */
  function LibraryDb(): (db: Db)
    ensures db.organization.rows == map[1 := OrganizationRow("Libb", "x"), 2 := OrganizationRow("Liba", "y")]
  {
    Db(Table(map[], 1), Table(map[1 := OrganizationRow("Libb", "x"), 2 := OrganizationRow("Liba", "y")], 3),
       Table(map[], 1), Table(map[], 1), Table(map[], 1), Table(map[], 1), Table(map[], 1))
  }

  /** The result is not sorted by name: scanned in storage order, "Libb" comes back
      before "Liba". */
  lemma OrganizationsFollowScanNotName()
    ensures var r := FindOrganizations(LibraryDb(), "Lib", [1, 2]);
      |r| == 2 && r[0].name == "Libb" && r[1].name == "Liba" && !SortedByName(r)
  {
    var rows := LibraryDb().organization.rows;
    var keep := (row: OrganizationRow) => HasPrefix(row.name, "Lib");
    assert HasPrefix("Libb", "Lib") && HasPrefix("Liba", "Lib") by {
      assert "Libb"[..3] == "Lib";
      assert "Liba"[..3] == "Lib";
    }
    assert Select(rows, [2], keep) == [2];
    assert Select(rows, [1, 2], keep) == [1, 2];
    assert StrictlyBefore("Liba", "Libb") by {
      assert "Liba"[1..] == "iba" && "Libb"[1..] == "ibb";
      assert "iba"[1..] == "ba" && "ibb"[1..] == "bb";
      assert "ba"[1..] == "a" && "bb"[1..] == "b";
    }
  }
}
