/** The upserts of JdbcBagger: storePerson, storeOrganization, storeContact and
    storeProfile try to load the entity's row and update it; on ANY exception
    they insert under a freshly generated key instead, and a failure of that
    insert throws UnsupportedOperationException. storePersonProject and
    storeUserContact only insert, and swallow every error. Each successful write
    appends one literal SQL statement to the replay log.

    The backing store's answer to each write attempt comes from a fault script:
    the i-th write attempt throws when the i-th entry is true, and once the
    script is used up every write succeeds. */
module Store {
  import opened Wrappers
  import opened Text
  import opened Database
  import opened ReplaySql

  /** The exceptions that can leave a store operation. */
  datatype Thrown = NullReference | Unsupported(message: string)

  /** The tables, the replay log (commandList) and the fault script. */
  datatype State = State(db: Db, log: seq<string>, faults: seq<bool>)

  /** The outcome of a store: the entity as the caller's object ends up, or the exception. */
  datatype Stored<T> = Done(value: T, st: State) | Threw(error: Thrown, st: State)

  predicate FailsNext(faults: seq<bool>) {
    |faults| > 0 && faults[0]
  }

  function Consume(faults: seq<bool>): seq<bool> {
    if |faults| == 0 then [] else faults[1..]
  }

  /** The log gained exactly one entry at its end. */
  predicate AppendedOne(before: seq<string>, after: seq<string>) {
    |after| == |before| + 1 && after[..|before|] == before
  }

  /** The newest log entry ("" for an empty log). */
  function Last(log: seq<string>): string {
    if log == [] then "" else log[|log| - 1]
  }

  // ---------------------------------------------------------------------------
  // Key generation
  // ---------------------------------------------------------------------------

  /** The key the database generates for an insert: the table's generator value,
      which no row uses. */
  function FreshKey<R>(t: KeyedTable<R>): (k: int)
    ensures k !in t.rows && k > 0
  {
    t.next
  }

  /** Inserting a row under the fresh key advances the generator. */
  function InsertRow<R>(t: KeyedTable<R>, row: R): (r: KeyedTable<R>)
    ensures r.rows == t.rows[FreshKey(t) := row]
  {
    Table(t.rows[t.next := row], t.next + 1)
  }

  /** Overwriting the row at an id in use. */
  function UpdateRow<R>(t: KeyedTable<R>, id: int, row: R): (r: KeyedTable<R>)
    requires id in t.rows
    ensures r.rows == t.rows[id := row] && r.rows.Keys == t.rows.Keys
  {
    Table(t.rows[id := row], t.next)
  }

  /** Every row of before other than the one at id is still in after, unchanged. */
  ghost predicate OthersKept<R>(before: map<int, R>, after: map<int, R>, id: int) {
    forall k :: k in before && k != id ==> k in after && after[k] == before[k]
  }

  // ---------------------------------------------------------------------------
  // The try-update / catch-insert skeleton shared by the four upserts
  // ---------------------------------------------------------------------------

  datatype Branch = Updated(id: int, entry: string) | Inserted(key: int, entry: string) | Rejected

  datatype Upsert<R> = Upsert(table: KeyedTable<R>, faults: seq<bool>, branch: Branch)

  /** The fault script as the catch block sees it: the update consumed an entry
      exactly when the load succeeded. */
  function AfterTry(faults: seq<bool>, found: bool): seq<bool> {
    if found then Consume(faults) else faults
  }

  /** One upsert into a table. found: the load at id succeeded; changed: the row at
      id as the UPDATE leaves it; row: the row the INSERT writes; assignments and
      values: the rendered UPDATE and INSERT, or None when rendering dereferences a
      null reference. */
  function UpsertRow<R>(name: string, t: KeyedTable<R>, faults: seq<bool>, id: int, found: bool, changed: R, row: R,
                        assignments: Option<seq<Assignment>>, values: Option<seq<string>>): (u: Upsert<R>)
    requires found ==> id in t.rows
    ensures u.branch.Updated? <==> found && !FailsNext(faults) && assignments.Some?
    ensures u.branch.Updated? ==>
      && u.branch.id == id
      && u.branch.entry == UpdateSql(name, assignments.value, id)
      && u.table.rows == t.rows[id := changed]
    ensures u.branch.Inserted? <==> !u.branch.Updated? && !FailsNext(AfterTry(faults, found)) && values.Some?
    ensures u.branch.Inserted? ==>
      && u.branch.key !in t.rows && u.branch.key > 0
      && u.branch.entry == InsertSql(name, u.branch.key, values.value)
      && u.table.rows.Keys == t.rows.Keys + {u.branch.key}
      && u.table.rows[u.branch.key] == row
    ensures t.rows.Keys <= u.table.rows.Keys <= t.rows.Keys + {FreshKey(t)}
    ensures OthersKept(t.rows, u.table.rows, id)
  {
    // try: the load threw, the update threw, or the update ran and rendering threw
    var updated := if found && !FailsNext(faults) then UpdateRow(t, id, changed) else t;
    var tryFaults := AfterTry(faults, found);
    if found && !FailsNext(faults) && assignments.Some? then
      Upsert(updated, tryFaults, Updated(id, UpdateSql(name, assignments.value, id)))
    else
      // catch: insert under a fresh key
      var key := FreshKey(updated);
      if FailsNext(tryFaults) then Upsert(updated, Consume(tryFaults), Rejected)
      else
        var inserted := InsertRow(updated, row);
        match values
        case None => Upsert(inserted, Consume(tryFaults), Rejected)
        case Some(vs) => Upsert(inserted, Consume(tryFaults), Inserted(key, InsertSql(name, key, vs)))
  }

  // ---------------------------------------------------------------------------
  // storePerson
  // ---------------------------------------------------------------------------

  function PersonAssignments(p: Person): seq<Assignment> {
    [Assignment("first_name", Quote(p.firstName)), Assignment("middle_init", Quote(p.middleInit)),
     Assignment("last_name", Quote(p.lastName))]
  }

  function PersonValues(p: Person): seq<string> {
    [Quote(p.firstName), Quote(p.middleInit), Quote(p.lastName)]
  }

  /** storePerson: update the row at p.id, or insert p under a fresh key. */
  function StorePerson(st: State, p: Person): (r: Stored<Person>)
    // a row exists and the update goes through: id kept, one UPDATE naming it
    ensures p.id in st.db.person.rows && !FailsNext(st.faults) ==>
      r.Done? && r.value == p && IsUpdateOf(Last(r.st.log), "person", p.id)
    // no row, or the update threw: a fresh key goes onto the person, one INSERT with it first
    ensures var found := p.id in st.db.person.rows;
      (!found || FailsNext(st.faults)) && !FailsNext(AfterTry(st.faults, found)) ==>
      && r.Done? && r.value == p.(id := r.value.id) && r.value.id !in st.db.person.rows && r.value.id > 0
      && IsInsertOf(Last(r.st.log), "person", r.value.id) && IsInsertInto(Last(r.st.log), "person")
    // the insert threw as well
    ensures var found := p.id in st.db.person.rows;
      r.Threw? <==> (!found || FailsNext(st.faults)) && FailsNext(AfterTry(st.faults, found))
    ensures r.Threw? ==> r.error == Unsupported("Profile update not supported") && r.st.log == st.log
    ensures r.Done? ==> AppendedOne(st.log, r.st.log) && LoadPerson(r.st.db, r.value.id) == Success(r.value)
    ensures r.Done? ==> r.st.db.person.rows.Keys == st.db.person.rows.Keys + {r.value.id}
    // no other row changes, and a failed store writes nothing
    ensures OthersKept(st.db.person.rows, r.st.db.person.rows, p.id)
    ensures r.Threw? ==> r.st.db == st.db
    ensures r.st.db == st.db.(person := r.st.db.person)
    ensures r.Done? ==> r.value == p.(id := r.value.id) && IsWriteOf(Last(r.st.log), "person")
  {
    var found := LoadPerson(st.db, p.id).Success?;
    var u := UpsertRow("person", st.db.person, st.faults, p.id, found, PersonColumns(p), PersonColumns(p),
                       Some(PersonAssignments(p)), Some(PersonValues(p)));
    var st' := st.(db := st.db.(person := u.table), faults := u.faults);
    match u.branch
    case Updated(_, entry) =>
      UpdateSqlShape("person", PersonAssignments(p), p.id);
      Done(p, st'.(log := st.log + [entry]))
    case Inserted(key, entry) =>
      InsertSqlShape("person", key, PersonValues(p));
      Done(p.(id := key), st'.(log := st.log + [entry]))
    case Rejected =>
      Threw(Unsupported("Profile update not supported"), st')
  }

  // ---------------------------------------------------------------------------
  // storeOrganization
  // ---------------------------------------------------------------------------

  function OrganizationAssignments(o: Organization): seq<Assignment> {
    [Assignment("name", Quote(o.name)), Assignment("address", Quote(o.address))]
  }

  function OrganizationValues(o: Organization): seq<string> {
    [Quote(o.name), Quote(o.address)]
  }

  /** storeOrganization: update the row at o.id, or insert o under a fresh key. */
  function StoreOrganization(st: State, o: Organization): (r: Stored<Organization>)
    ensures o.id in st.db.organization.rows && !FailsNext(st.faults) ==>
      r.Done? && r.value == o && IsUpdateOf(Last(r.st.log), "organization", o.id)
    ensures var found := o.id in st.db.organization.rows;
      (!found || FailsNext(st.faults)) && !FailsNext(AfterTry(st.faults, found)) ==>
      && r.Done? && r.value == o.(id := r.value.id) && r.value.id !in st.db.organization.rows && r.value.id > 0
      && IsInsertOf(Last(r.st.log), "organization", r.value.id) && IsInsertInto(Last(r.st.log), "organization")
    ensures var found := o.id in st.db.organization.rows;
      r.Threw? <==> (!found || FailsNext(st.faults)) && FailsNext(AfterTry(st.faults, found))
    ensures r.Threw? ==> r.error == Unsupported("Organization update not supported") && r.st.log == st.log
    ensures r.Done? ==> AppendedOne(st.log, r.st.log) && LoadOrganization(r.st.db, r.value.id) == Success(r.value)
    ensures r.Done? ==> r.st.db.organization.rows.Keys == st.db.organization.rows.Keys + {r.value.id}
    // no other row changes, and a failed store writes nothing
    ensures OthersKept(st.db.organization.rows, r.st.db.organization.rows, o.id)
    ensures r.Threw? ==> r.st.db == st.db
    ensures r.st.db == st.db.(organization := r.st.db.organization)
    ensures r.Done? ==> r.value == o.(id := r.value.id) && IsWriteOf(Last(r.st.log), "organization")
  {
    var found := LoadOrganization(st.db, o.id).Success?;
    var u := UpsertRow("organization", st.db.organization, st.faults, o.id, found, OrganizationColumns(o), OrganizationColumns(o),
                       Some(OrganizationAssignments(o)), Some(OrganizationValues(o)));
    var st' := st.(db := st.db.(organization := u.table), faults := u.faults);
    match u.branch
    case Updated(_, entry) =>
      UpdateSqlShape("organization", OrganizationAssignments(o), o.id);
      Done(o, st'.(log := st.log + [entry]))
    case Inserted(key, entry) =>
      InsertSqlShape("organization", key, OrganizationValues(o));
      Done(o.(id := key), st'.(log := st.log + [entry]))
    case Rejected =>
      Threw(Unsupported("Organization update not supported"), st')
  }

  // ---------------------------------------------------------------------------
  // storeContact
  // ---------------------------------------------------------------------------

  /** The UPDATE's assignments; None when the contact's person or organization is null. */
  function ContactAssignments(c: Contact): Option<seq<Assignment>> {
    if c.person.None? || c.organization.None? then None
    else Some([Assignment("person_id", IntToString(c.person.value.id)),
               Assignment("organization_id", IntToString(c.organization.value.id)),
               Assignment("email", Quote(c.email)), Assignment("telephone", Quote(c.telephone))])
  }

  function ContactValues(c: Contact): Option<seq<string>> {
    if c.person.None? || c.organization.None? then None
    else Some([IntToString(c.person.value.id), IntToString(c.organization.value.id),
               Quote(c.email), Quote(c.telephone)])
  }

  /** storeContact: update the row at c.id (found only when the contact's person and
      organization rows load too), or insert c under a fresh key. The row written
      holds the contact's own personId and organizationId fields; the log entry
      names the ids of the nested person and organization objects. */
  function StoreContact(st: State, c: Contact): (r: Stored<Contact>)
    ensures var found := LoadContact(st.db, c.id).Success?;
      c.person.Some? && c.organization.Some? && found && !FailsNext(st.faults) ==>
      r.Done? && r.value == c && IsUpdateOf(Last(r.st.log), "contact", c.id)
    ensures var found := LoadContact(st.db, c.id).Success?;
      c.person.Some? && c.organization.Some? && (!found || FailsNext(st.faults)) && !FailsNext(AfterTry(st.faults, found)) ==>
      && r.Done? && r.value == c.(id := r.value.id) && r.value.id !in st.db.contact.rows && r.value.id > 0
      && IsInsertOf(Last(r.st.log), "contact", r.value.id) && IsInsertInto(Last(r.st.log), "contact")
    // with both present, only a failed insert throws
    ensures var found := LoadContact(st.db, c.id).Success?;
      c.person.Some? && c.organization.Some? ==>
      (r.Threw? <==> (!found || FailsNext(st.faults)) && FailsNext(AfterTry(st.faults, found)))
    // a null person or organization makes both branches throw while rendering
    ensures c.person.None? || c.organization.None? ==> r.Threw?
    ensures r.Threw? ==> r.error == Unsupported("Profile update not supported") && r.st.log == st.log
    ensures r.Done? ==>
      && AppendedOne(st.log, r.st.log)
      && r.value.id in r.st.db.contact.rows && r.st.db.contact.rows[r.value.id] == ContactColumns(c)
    ensures r.Done? ==> r.st.db.contact.rows.Keys == st.db.contact.rows.Keys + {r.value.id}
    // no row other than the one at c.id changes (a throw may follow an update that ran)
    ensures OthersKept(st.db.contact.rows, r.st.db.contact.rows, c.id)
    ensures r.st.db == st.db.(contact := r.st.db.contact)
    ensures r.Done? ==> r.value == c.(id := r.value.id) && IsWriteOf(Last(r.st.log), "contact")
  {
    var found := LoadContact(st.db, c.id).Success?;
    var u := UpsertRow("contact", st.db.contact, st.faults, c.id, found, ContactColumns(c), ContactColumns(c),
                       ContactAssignments(c), ContactValues(c));
    var st' := st.(db := st.db.(contact := u.table), faults := u.faults);
    match u.branch
    case Updated(_, entry) =>
      UpdateSqlShape("contact", ContactAssignments(c).value, c.id);
      Done(c, st'.(log := st.log + [entry]))
    case Inserted(key, entry) =>
      InsertSqlShape("contact", key, ContactValues(c).value);
      Done(c.(id := key), st'.(log := st.log + [entry]))
    case Rejected =>
      Threw(Unsupported("Profile update not supported"), st')
  }

  // ---------------------------------------------------------------------------
  // storeProfile
  // ---------------------------------------------------------------------------

  /** The id the log writes as profile_person_id: the owner contact's nested Person. */
  function LoggedPersonId(p: Profile): Option<int> {
    if p.person.Some? && p.person.value.person.Some? then Some(p.person.value.person.value.id) else None
  }

  function ProfileAssignments(p: Profile): Option<seq<Assignment>> {
    if p.contact.None? || LoggedPersonId(p).None? then None
    else Some([Assignment("username", Quote(p.username)),
               Assignment("profile_person_id", IntToString(LoggedPersonId(p).value)),
               Assignment("project_id", IntToString(p.projectId)),
               Assignment("contact_id", IntToString(p.contact.value.id))])
  }

  function ProfileValues(p: Profile): Option<seq<string>> {
    if p.contact.None? || LoggedPersonId(p).None? then None
    else Some([Quote(p.username), IntToString(LoggedPersonId(p).value), IntToString(p.projectId),
               IntToString(p.contact.value.id), "'A'", "'2008-09-18'"])
  }

  /** The profile row as the UPDATE leaves it: it sets username, profile_person_id,
      project_id and contact_id from p, and keeps the stored status and creation date. */
  function ProfileUpdated(stored: ProfileRow, p: Profile): ProfileRow {
    stored.(username := p.username, profilePersonId := p.profilePersonId, projectId := p.projectId, contactId := p.contactId)
  }

  /** The upsert of storeProfile, once the owner contact is known to be present:
      update the row at p.id (found only when the whole profile graph loads), or
      insert p under a fresh key. The UPDATE keeps the row's status and creation
      date; the INSERT writes p's, yet always logs status 'A' and the date
      2008-09-18. */
  function UpsertProfile(st: State, p: Profile): (r: Stored<Profile>)
    requires p.person.Some?
    ensures var found := LoadProfile(st.db, p.id).Success?;
      p.contact.Some? && LoggedPersonId(p).Some? && found && !FailsNext(st.faults) ==>
      && r.Done? && r.value == p && IsUpdateOf(Last(r.st.log), "profile", p.id)
      && p.id in st.db.profile.rows && p.id in r.st.db.profile.rows
      && r.st.db.profile.rows[p.id].status == st.db.profile.rows[p.id].status
      && r.st.db.profile.rows[p.id].created == st.db.profile.rows[p.id].created
    ensures var found := LoadProfile(st.db, p.id).Success?;
      p.contact.Some? && LoggedPersonId(p).Some? && (!found || FailsNext(st.faults)) && !FailsNext(AfterTry(st.faults, found)) ==>
      && r.Done? && r.value == p.(id := r.value.id) && r.value.id !in st.db.profile.rows && r.value.id > 0
      && IsInsertOf(Last(r.st.log), "profile", r.value.id) && IsInsertInto(Last(r.st.log), "profile")
    // with every object the statements name present, only a failed insert throws
    ensures var found := LoadProfile(st.db, p.id).Success?;
      p.contact.Some? && LoggedPersonId(p).Some? ==>
      (r.Threw? <==> (!found || FailsNext(st.faults)) && FailsNext(AfterTry(st.faults, found)))
    // a null contact, or an owner contact without a person, makes both branches throw
    ensures p.contact.None? || LoggedPersonId(p).None? ==> r.Threw?
    ensures r.Threw? ==> r.error == Unsupported("Profile update not supported") && r.st.log == st.log
    ensures r.Done? ==>
      && AppendedOne(st.log, r.st.log)
      && r.value.id in r.st.db.profile.rows
      // an updated row keeps its status and date, an inserted one gets p's
      && (r.value.id in st.db.profile.rows ==>
            r.st.db.profile.rows[r.value.id] == ProfileUpdated(st.db.profile.rows[r.value.id], p))
      && (r.value.id !in st.db.profile.rows ==> r.st.db.profile.rows[r.value.id] == ProfileColumns(p))
      && ProfileAssignments(p).Some? && ProfileValues(p).Some?
      && (Last(r.st.log) == UpdateSql("profile", ProfileAssignments(p).value, r.value.id)
          || Last(r.st.log) == InsertSql("profile", r.value.id, ProfileValues(p).value))
    ensures r.Done? ==> r.st.db.profile.rows.Keys == st.db.profile.rows.Keys + {r.value.id}
    // no row other than the one at p.id changes (a throw may follow an update that ran)
    ensures OthersKept(st.db.profile.rows, r.st.db.profile.rows, p.id)
    ensures r.st.db == st.db.(profile := r.st.db.profile)
    ensures r.Done? ==> r.value == p.(id := r.value.id) && IsWriteOf(Last(r.st.log), "profile")
  {
    var found := LoadProfile(st.db, p.id).Success?;
    var changed := if p.id in st.db.profile.rows then ProfileUpdated(st.db.profile.rows[p.id], p) else ProfileColumns(p);
    var u := UpsertRow("profile", st.db.profile, st.faults, p.id, found, changed, ProfileColumns(p),
                       ProfileAssignments(p), ProfileValues(p));
    var st' := st.(db := st.db.(profile := u.table), faults := u.faults);
    match u.branch
    case Updated(_, entry) =>
      UpdateSqlShape("profile", ProfileAssignments(p).value, p.id);
      Done(p, st'.(log := st.log + [entry]))
    case Inserted(key, entry) =>
      InsertSqlShape("profile", key, ProfileValues(p).value);
      Done(p.(id := key), st'.(log := st.log + [entry]))
    case Rejected =>
      Threw(Unsupported("Profile update not supported"), st')
  }

  /** storeProfile: the owner contact (profile.getPerson()) is dereferenced first, so
      a null one throws before anything is read or written; otherwise the upsert. */
  function StoreProfile(st: State, p: Profile): (r: Stored<Profile>)
    ensures p.person.None? ==> r == Threw(NullReference, st)
    ensures p.person.Some? ==> r == UpsertProfile(st, p)
  {
    if p.person.None? then Threw(NullReference, st) else UpsertProfile(st, p)
  }

  // ---------------------------------------------------------------------------
  // The join-table inserts
  // ---------------------------------------------------------------------------

  /** storePersonProject: insert a person_projects row; a null argument or a failed
      insert is swallowed and leaves the tables and the log as they were. */
  function StorePersonProject(st: State, person: Option<Person>, project: Option<Project>): (r: State)
    ensures person.None? || project.None? ==> r == st
    ensures person.Some? && project.Some? && FailsNext(st.faults) ==>
      r.db == st.db && r.log == st.log
    ensures person.Some? && project.Some? && !FailsNext(st.faults) ==>
      var key := FreshKey(st.db.personProjects);
      && r.db == st.db.(personProjects := InsertRow(st.db.personProjects, PersonProjectRow(person.value.id, project.value.id)))
      && AppendedOne(st.log, r.log) && IsInsertOf(Last(r.log), "person_projects", key)
    ensures r.log == st.log || AppendedOne(st.log, r.log)
  {
    if person.None? || project.None? then st
    else if FailsNext(st.faults) then st.(faults := Consume(st.faults))
    else
      var key := FreshKey(st.db.personProjects);
      var values := [IntToString(person.value.id), IntToString(project.value.id)];
      InsertSqlShape("person_projects", key, values);
      State(st.db.(personProjects := InsertRow(st.db.personProjects, PersonProjectRow(person.value.id, project.value.id))),
            st.log + [InsertSql("person_projects", key, values)],
            Consume(st.faults))
  }

  /** storeUserContact: insert a user_contact row; a null contact or a failed insert is
      swallowed and leaves the tables and the log as they were. */
  function StoreUserContact(st: State, username: string, user: Option<Contact>): (r: State)
    ensures user.None? ==> r == st
    ensures user.Some? && FailsNext(st.faults) ==> r.db == st.db && r.log == st.log
    ensures user.Some? && !FailsNext(st.faults) ==>
      var key := FreshKey(st.db.userContact);
      && r.db == st.db.(userContact := InsertRow(st.db.userContact, UserContactRow(username, user.value.id)))
      && AppendedOne(st.log, r.log) && IsInsertOf(Last(r.log), "user_contact", key)
    ensures r.log == st.log || AppendedOne(st.log, r.log)
  {
    if user.None? then st
    else if FailsNext(st.faults) then st.(faults := Consume(st.faults))
    else
      var key := FreshKey(st.db.userContact);
      var values := [Quote(username), IntToString(user.value.id)];
      InsertSqlShape("user_contact", key, values);
      State(st.db.(userContact := InsertRow(st.db.userContact, UserContactRow(username, user.value.id))),
            st.log + [InsertSql("user_contact", key, values)],
            Consume(st.faults))
  }

  /** Storing a new person twice with no failing write: the first store inserts it
      under a fresh key, the second finds that row and updates it in place, so the
      table gains exactly one row. */
  lemma StorePersonTwice(st: State, p: Person)
    requires p.id !in st.db.person.rows && st.faults == []
    ensures var first := StorePerson(st, p);
      var second := StorePerson(first.st, first.value);
      && first.Done? && second.Done? && second.value == first.value
      && IsInsertOf(Last(first.st.log), "person", first.value.id)
      && IsUpdateOf(Last(second.st.log), "person", first.value.id)
      && second.st.log == st.log + [Last(first.st.log), Last(second.st.log)]
      && second.st.db.person.rows.Keys == st.db.person.rows.Keys + {first.value.id}
      && LoadPerson(second.st.db, first.value.id) == Success(first.value)
  {
    var first := StorePerson(st, p);
    assert first.st.faults == [];
    var second := StorePerson(first.st, first.value);
    assert second.st.log[..|first.st.log|] == first.st.log;
    assert first.st.log == st.log + [Last(first.st.log)];
    assert second.st.log == first.st.log + [Last(second.st.log)];
  }
}
