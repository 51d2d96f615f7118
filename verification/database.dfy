/** The entities JdbcBagger persists, the rows of its tables, and the point
    lookups loadPerson, loadOrganization, loadProject, loadContact and
    loadProfile. A table is a map from the integer id column to the row's other
    columns. The entity classes themselves are not part of this model; their
    accessors are taken to be plain fields. */
module Database {
  import opened Wrappers

  datatype Person = Person(id: int, firstName: string, middleInit: string, lastName: string)

  datatype Organization = Organization(id: int, name: string, address: string)

  datatype Project = Project(id: int, name: string)

  /** A contact refers to its person and organization both as objects (which may be
      null) and as the id fields the row mapper fills in. */
  datatype Contact = Contact(
    id: int,
    person: Option<Person>,
    organization: Option<Organization>,
    personId: int,
    organizationId: int,
    email: string,
    telephone: string)

  /** A profile holds its owner's contact (person), its secondary contact (contact) and
      its project, as objects and as foreign-key fields, a status flag and its
      creation date (kept as text). */
  datatype Profile = Profile(
    id: int,
    username: string,
    person: Option<Contact>,
    contact: Option<Contact>,
    project: Option<Project>,
    profilePersonId: int,
    contactId: int,
    projectId: int,
    status: string,
    created: string)

  datatype PersonRow = PersonRow(firstName: string, middleInit: string, lastName: string)
  datatype OrganizationRow = OrganizationRow(name: string, address: string)
  datatype ProjectRow = ProjectRow(name: string)
  datatype ContactRow = ContactRow(personId: int, organizationId: int, email: string, telephone: string)
  datatype ProfileRow = ProfileRow(username: string, profilePersonId: int, projectId: int, contactId: int, status: string,
                                   created: string)
  datatype PersonProjectRow = PersonProjectRow(personId: int, projectId: int)
  datatype UserContactRow = UserContactRow(username: string, contactId: int)

  /** A table: its rows by id, and the next value of the id column's key generator. */
  datatype Table<R> = Table(rows: map<int, R>, next: int) {
    /** Keys are generated from 1 upwards: every id in use is positive and lies below the generator. */
    predicate Valid() {
      next > 0 && forall k :: k in rows ==> 0 < k < next
    }
  }

  type KeyedTable<R> = t: Table<R> | t.Valid() witness Table(map[], 1)

  /** The tables person, organization, projects, contact, profile, person_projects and user_contact. */
  datatype Db = Db(
    person: KeyedTable<PersonRow>,
    organization: KeyedTable<OrganizationRow>,
    projects: KeyedTable<ProjectRow>,
    contact: KeyedTable<ContactRow>,
    profile: KeyedTable<ProfileRow>,
    personProjects: KeyedTable<PersonProjectRow>,
    userContact: KeyedTable<UserContactRow>)

  /** The columns written for an entity (a bean parameter source reads these properties). */
  function PersonColumns(p: Person): PersonRow {
    PersonRow(p.firstName, p.middleInit, p.lastName)
  }

  function OrganizationColumns(o: Organization): OrganizationRow {
    OrganizationRow(o.name, o.address)
  }

  function ContactColumns(c: Contact): ContactRow {
    ContactRow(c.personId, c.organizationId, c.email, c.telephone)
  }

  function ProfileColumns(p: Profile): ProfileRow {
    ProfileRow(p.username, p.profilePersonId, p.projectId, p.contactId, p.status, p.created)
  }

  /** ObjectRetrievalFailureException: no row of the named class at that id. */
  datatype Missing = Missing(entity: string, id: int)

  function LoadPerson(db: Db, id: int): (r: Result<Person, Missing>)
    ensures r.Success? <==> id in db.person.rows
    ensures r.Success? ==> r.value.id == id && PersonColumns(r.value) == db.person.rows[id]
    ensures r.Failure? ==> r.error == Missing("Person", id)
  {
    if id in db.person.rows then
      var row := db.person.rows[id];
      Success(Person(id, row.firstName, row.middleInit, row.lastName))
    else Failure(Missing("Person", id))
  }

  function LoadOrganization(db: Db, id: int): (r: Result<Organization, Missing>)
    ensures r.Success? <==> id in db.organization.rows
    ensures r.Success? ==> r.value.id == id && OrganizationColumns(r.value) == db.organization.rows[id]
    ensures r.Failure? ==> r.error == Missing("Organization", id)
  {
    if id in db.organization.rows then
      var row := db.organization.rows[id];
      Success(Organization(id, row.name, row.address))
    else Failure(Missing("Organization", id))
  }

  function LoadProject(db: Db, id: int): (r: Result<Project, Missing>)
    ensures r.Success? <==> id in db.projects.rows
    ensures r.Success? ==> r.value.id == id && r.value.name == db.projects.rows[id].name
    ensures r.Failure? ==> r.error == Missing("Project", id)
  {
    if id in db.projects.rows then Success(Project(id, db.projects.rows[id].name))
    else Failure(Missing("Project", id))
  }

  /** A contact row together with the person and organization rows it refers to. A
      missing nested row fails with that row's own class and id. */
  function LoadContact(db: Db, id: int): (r: Result<Contact, Missing>)
    ensures r.Success? <==>
      id in db.contact.rows && db.contact.rows[id].personId in db.person.rows && db.contact.rows[id].organizationId in db.organization.rows
    ensures r.Success? ==>
      && r.value.id == id
      && ContactColumns(r.value) == db.contact.rows[id]
      && r.value.person == Some(LoadPerson(db, db.contact.rows[id].personId).value)
      && r.value.organization == Some(LoadOrganization(db, db.contact.rows[id].organizationId).value)
  {
    if id !in db.contact.rows then Failure(Missing("Contact", id))
    else
      var row := db.contact.rows[id];
      match LoadPerson(db, row.personId)
      case Failure(e) => Failure(e)
      case Success(p) =>
        match LoadOrganization(db, row.organizationId)
        case Failure(e) => Failure(e)
        case Success(o) =>
          Success(Contact(id, Some(p), Some(o), row.personId, row.organizationId, row.email, row.telephone))
  }

  /** A profile is loadable when its row, both contacts (with their person and
      organization) and its project are. */
  predicate ProfileLoadable(db: Db, id: int) {
    && id in db.profile.rows
    && LoadContact(db, db.profile.rows[id].profilePersonId).Success?
    && LoadContact(db, db.profile.rows[id].contactId).Success?
    && db.profile.rows[id].projectId in db.projects.rows
  }

  /** The profile row with its owner contact, secondary contact and project resolved. */
  function LoadProfile(db: Db, id: int): (r: Result<Profile, Missing>)
    ensures r.Success? <==> ProfileLoadable(db, id)
    ensures r.Success? ==>
      && r.value.id == id
      && ProfileColumns(r.value) == db.profile.rows[id]
      && r.value.person == Some(LoadContact(db, db.profile.rows[id].profilePersonId).value)
      && r.value.contact == Some(LoadContact(db, db.profile.rows[id].contactId).value)
      && r.value.project == Some(LoadProject(db, db.profile.rows[id].projectId).value)
  {
    if id !in db.profile.rows then Failure(Missing("Profile", id))
    else
      var row := db.profile.rows[id];
      match LoadContact(db, row.profilePersonId)
      case Failure(e) => Failure(e)
      case Success(owner) =>
        match LoadContact(db, row.contactId)
        case Failure(e) => Failure(e)
        case Success(contact) =>
          match LoadProject(db, row.projectId)
          case Failure(e) => Failure(e)
          case Success(project) =>
            Success(Profile(id, row.username, Some(owner), Some(contact), Some(project),
                            row.profilePersonId, row.contactId, row.projectId, row.status, row.created))
  }
}
