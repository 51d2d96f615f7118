/** storeBaggerUpdates and write: every profile of a batch is stored together with
    the entities it refers to, in a fixed order, and the whole replay log is then
    written to bagger.sql in the home directory, one statement per line. The first
    exception aborts the batch; the log is never cleared, so statements written
    before an abort, and by earlier batches, stay in it.

    The loop body mutates the profile's objects in place as it goes; here each of
    its seven writes is a stage that takes the profile as mutated so far (or the
    exception that ended the body) and hands on the profile as it leaves it. */
module Batch {
  import opened Wrappers
  import opened Text
  import opened Database
  import opened ReplaySql
  import opened Store
  import Tokens

  // ---------------------------------------------------------------------------
  // The objects of a profile
  // ---------------------------------------------------------------------------

  /** The owner contact and the secondary contact, which the loop body dereferences
      before it writes anything. */
  predicate HasContacts(p: Profile) {
    p.contact.Some? && p.person.Some?
  }

  /** A contact whose person and organization are both present. */
  predicate HasParts(c: Contact) {
    c.person.Some? && c.organization.Some?
  }

  /** Every object the loop body dereferences or stores is present. */
  predicate Complete(p: Profile) {
    && HasContacts(p) && p.project.Some?
    && HasParts(p.contact.value) && HasParts(p.person.value)
  }

  /** The foreign-key fields agree with the objects they refer to. */
  predicate KeysDerived(p: Profile) {
    && HasContacts(p) && p.project.Some?
    && p.contactId == p.contact.value.id
    && p.profilePersonId == p.person.value.id
    && p.projectId == p.project.value.id
  }

  /** The owner contact (owner) or the secondary contact (!owner). */
  function Holder(p: Profile, owner: bool): Contact
    requires HasContacts(p)
  {
    if owner then p.person.value else p.contact.value
  }

  function WithHolder(p: Profile, owner: bool, c: Contact): (r: Profile)
    ensures HasContacts(p) ==> HasContacts(r)
  {
    if owner then p.(person := Some(c)) else p.(contact := Some(c))
  }

  /** The log before is a prefix of the log after. */
  predicate Extends(before: seq<string>, after: seq<string>) {
    |before| <= |after| && after[..|before|] == before
  }

  // ---------------------------------------------------------------------------
  // The seven stages of the loop body
  // ---------------------------------------------------------------------------

  /** "if (person != null) storePerson(person)" for a contact's person: the person
      keeps everything but its id, which the store may have generated. */
  function StorePersonStage(x: Stored<Profile>, owner: bool): (r: Stored<Profile>)
    requires x.Done? ==> HasContacts(x.value)
    ensures x.Threw? ==> r == x
    ensures Extends(x.st.log, r.st.log)
    ensures r.Done? ==>
      var before := Holder(x.value, owner);
      && x.Done? && HasContacts(r.value)
      && r.value == WithHolder(x.value, owner, before.(person := Holder(r.value, owner).person))
      && (before.person.None? ==> Holder(r.value, owner).person.None? && r.st == x.st)
      && (before.person.Some? ==>
            && Holder(r.value, owner).person.Some?
            && Holder(r.value, owner).person.value == before.person.value.(id := Holder(r.value, owner).person.value.id)
            && AppendedOne(x.st.log, r.st.log) && IsWriteOf(Last(r.st.log), "person"))
    ensures r.st.db.profile == x.st.db.profile
    ensures x.Done? && r.Threw? ==> r.error.Unsupported? && r.st.log == x.st.log
    ensures x.Done? && x.st.faults == [] ==> r.Done? && r.st.faults == []
    ensures x.Done? && x.st.faults == [] && Holder(x.value, owner).person.Some? && Holder(x.value, owner).person.value.id <= 0 ==>
      IsInsertInto(Last(r.st.log), "person") && Holder(r.value, owner).person.value.id > 0
  {
    if x.Threw? then x
    else
      var c := Holder(x.value, owner);
      match c.person
      case None => x
      case Some(person) =>
        match StorePerson(x.st, person)
        case Threw(e, s) => Threw(e, s)
        case Done(stored, s) => Done(WithHolder(x.value, owner, c.(person := Some(stored))), s)
  }

  /** "if (org != null) storeOrganization(org)" for a contact's organization. */
  function StoreOrganizationStage(x: Stored<Profile>, owner: bool): (r: Stored<Profile>)
    requires x.Done? ==> HasContacts(x.value)
    ensures x.Threw? ==> r == x
    ensures Extends(x.st.log, r.st.log)
    ensures r.Done? ==>
      var before := Holder(x.value, owner);
      && x.Done? && HasContacts(r.value)
      && r.value == WithHolder(x.value, owner, before.(organization := Holder(r.value, owner).organization))
      && (before.organization.None? ==> Holder(r.value, owner).organization.None? && r.st == x.st)
      && (before.organization.Some? ==>
            && Holder(r.value, owner).organization.Some?
            && Holder(r.value, owner).organization.value == before.organization.value.(id := Holder(r.value, owner).organization.value.id)
            && AppendedOne(x.st.log, r.st.log) && IsWriteOf(Last(r.st.log), "organization"))
    ensures r.st.db.profile == x.st.db.profile
    ensures x.Done? && r.Threw? ==> r.error.Unsupported? && r.st.log == x.st.log
    ensures x.Done? && x.st.faults == [] ==> r.Done? && r.st.faults == []
    ensures x.Done? && x.st.faults == [] && Holder(x.value, owner).organization.Some? && Holder(x.value, owner).organization.value.id <= 0 ==>
      IsInsertInto(Last(r.st.log), "organization") && Holder(r.value, owner).organization.value.id > 0
  {
    if x.Threw? then x
    else
      var c := Holder(x.value, owner);
      match c.organization
      case None => x
      case Some(org) =>
        match StoreOrganization(x.st, org)
        case Threw(e, s) => Threw(e, s)
        case Done(stored, s) => Done(WithHolder(x.value, owner, c.(organization := Some(stored))), s)
  }

  /** storeContact on the secondary contact (then contactId := its id) or on the
      owner contact (then profilePersonId := its id). */
  function StoreContactStage(x: Stored<Profile>, owner: bool): (r: Stored<Profile>)
    requires x.Done? ==> HasContacts(x.value)
    ensures x.Threw? ==> r == x
    ensures Extends(x.st.log, r.st.log)
    ensures r.Done? ==> x.Done? && HasParts(Holder(x.value, owner)) && HasContacts(r.value)
    ensures r.Done? ==>
      var stored := Holder(r.value, owner);
      && stored == Holder(x.value, owner).(id := stored.id)
      && (if owner then r.value == x.value.(person := Some(stored), profilePersonId := stored.id)
          else r.value == x.value.(contact := Some(stored), contactId := stored.id))
      && AppendedOne(x.st.log, r.st.log) && IsWriteOf(Last(r.st.log), "contact")
      && stored.id in r.st.db.contact.rows && r.st.db.contact.rows[stored.id] == ContactColumns(stored)
    ensures r.st.db.profile == x.st.db.profile
    ensures x.Done? && r.Threw? ==> r.error.Unsupported? && r.st.log == x.st.log
    ensures x.Done? && x.st.faults == [] && HasParts(Holder(x.value, owner)) ==> r.Done? && r.st.faults == []
    ensures x.Done? && x.st.faults == [] && HasParts(Holder(x.value, owner)) && Holder(x.value, owner).id <= 0 ==>
      IsInsertInto(Last(r.st.log), "contact") && Holder(r.value, owner).id > 0
  {
    if x.Threw? then x
    else
      match StoreContact(x.st, Holder(x.value, owner))
      case Threw(e, s) => Threw(e, s)
      case Done(stored, s) =>
        if owner then Done(x.value.(person := Some(stored), profilePersonId := stored.id), s)
        else Done(x.value.(contact := Some(stored), contactId := stored.id), s)
  }

  /** projectId := project.getId() (a null project throws), then storeProfile. */
  function StoreProfileStage(x: Stored<Profile>): (r: Stored<Profile>)
    requires x.Done? ==> HasContacts(x.value)
    ensures x.Threw? ==> r == x
    ensures Extends(x.st.log, r.st.log)
    ensures x.Done? && x.value.project.None? ==> r == Threw(NullReference, x.st)
    ensures r.Done? ==>
      && x.Done? && x.value.project.Some? && x.value.person.value.person.Some?
      && r.value == x.value.(projectId := x.value.project.value.id, id := r.value.id)
      && AppendedOne(x.st.log, r.st.log)
      && r.value.id in r.st.db.profile.rows
      // an updated row keeps its status and date, an inserted one gets the profile's
      && (r.value.id in x.st.db.profile.rows ==>
            r.st.db.profile.rows[r.value.id] == ProfileUpdated(x.st.db.profile.rows[r.value.id], r.value))
      && (r.value.id !in x.st.db.profile.rows ==> r.st.db.profile.rows[r.value.id] == ProfileColumns(r.value))
      && r.st.db.contact == x.st.db.contact
      && ProfileAssignments(r.value).Some? && ProfileValues(r.value).Some?
      && (Last(r.st.log) == UpdateSql("profile", ProfileAssignments(r.value).value, r.value.id)
          || Last(r.st.log) == InsertSql("profile", r.value.id, ProfileValues(r.value).value))
      && IsWriteOf(Last(r.st.log), "profile")
    ensures x.Done? && r.Threw? ==> r.st.log == x.st.log
    ensures x.Done? && x.st.faults == [] && x.value.project.Some? && x.value.person.value.person.Some? ==> r.Done?
    ensures x.Done? && x.st.faults == [] && x.value.project.Some? && x.value.person.value.person.Some? && x.value.id <= 0 ==>
      IsInsertInto(Last(r.st.log), "profile") && r.value.id > 0
  {
    if x.Threw? then x
    else if x.value.project.None? then Threw(NullReference, x.st)
    else StoreProfile(x.st, x.value.(projectId := x.value.project.value.id))
  }

  /** The body of the loop of storeBaggerUpdates for one profile: a null contact or
      owner is dereferenced before anything is written and throws; otherwise the
      seven stages run. */
  function StoreProfileGraph(st: State, profile: Profile): (r: Stored<Profile>)
    ensures !HasContacts(profile) ==> r == Threw(NullReference, st)
  {
    if !HasContacts(profile) then Threw(NullReference, st)
    else
      var x1 := StorePersonStage(Done(profile, st), false);
      var x2 := StorePersonStage(x1, true);
      var x3 := StoreOrganizationStage(x2, false);
      var x4 := StoreOrganizationStage(x3, true);
      var x5 := StoreContactStage(x4, false);
      var x6 := StoreContactStage(x5, true);
      StoreProfileStage(x6)
  }

  // ---------------------------------------------------------------------------
  // What one profile does to the log and the tables
  // ---------------------------------------------------------------------------

  /** The tables one stored profile writes, in log order. */
  const GraphTables: seq<string> := ["person", "person", "organization", "organization", "contact", "contact", "profile"]

  lemma GraphTablesInOrder()
    ensures [] + ["person"] + ["person"] + ["organization"] + ["organization"] + ["contact"] + ["contact"] + ["profile"] == GraphTables
  {
  }

  /** The statement is on the table; with insertsOnly, it is an INSERT into it. */
  predicate WritesTable(statement: string, table: string, insertsOnly: bool) {
    if insertsOnly then IsInsertInto(statement, table) else IsWriteOf(statement, table)
  }

  /** after is before followed by one statement per table, on those tables in that
      order. */
  predicate LogGrew(before: seq<string>, after: seq<string>, tables: seq<string>, insertsOnly: bool)
    decreases |tables|
  {
    if tables == [] then after == before
    else
      && |after| > 0
      && LogGrew(before, after[..|after| - 1], tables[..|tables| - 1], insertsOnly)
      && WritesTable(after[|after| - 1], tables[|tables| - 1], insertsOnly)
  }

  /** The same, entry by entry. */
  lemma {:induction false} LogGrewEntries(before: seq<string>, after: seq<string>, tables: seq<string>, insertsOnly: bool)
    requires LogGrew(before, after, tables, insertsOnly)
    ensures |after| == |before| + |tables| && after[..|before|] == before
    ensures forall i :: 0 <= i < |tables| ==> WritesTable(after[|before| + i], tables[i], insertsOnly)
    decreases |tables|
  {
    if tables != [] {
      var shorter := after[..|after| - 1];
      LogGrewEntries(before, shorter, tables[..|tables| - 1], insertsOnly);
      assert after[..|before|] == shorter[..|before|];
      forall i | 0 <= i < |tables|
        ensures WritesTable(after[|before| + i], tables[i], insertsOnly)
      {
        if i < |tables| - 1 {
          assert after[|before| + i] == shorter[|before| + i];
          assert tables[i] == tables[..|tables| - 1][i];
        }
      }
    }
  }

  lemma ExtendsTransitive(a: seq<string>, b: seq<string>, c: seq<string>)
    requires Extends(a, b) && Extends(b, c)
    ensures Extends(a, c)
  {
    assert c[..|a|] == c[..|b|][..|a|];
  }

  lemma LogGrewStep(a: seq<string>, b: seq<string>, c: seq<string>, tables: seq<string>, t: string, insertsOnly: bool)
    requires LogGrew(a, b, tables, insertsOnly)
    requires AppendedOne(b, c)
    requires WritesTable(Last(c), t, insertsOnly)
    ensures LogGrew(a, c, tables + [t], insertsOnly)
  {
    assert (tables + [t])[..|tables|] == tables;
    assert c[..|c| - 1] == b;
  }

  /** A stored profile: every object it needs was present, and the returned profile
      is the original with generated ids and the foreign-key fields re-derived from
      the stored objects. */
  lemma GraphStoredShape(st: State, profile: Profile)
    requires StoreProfileGraph(st, profile).Done?
    ensures var r := StoreProfileGraph(st, profile);
      && Complete(profile) && KeysDerived(r.value)
      && r.value.project == profile.project && r.value.username == profile.username && r.value.status == profile.status
  {
    var x1 := StorePersonStage(Done(profile, st), false);
    var x2 := StorePersonStage(x1, true);
    var x3 := StoreOrganizationStage(x2, false);
    var x4 := StoreOrganizationStage(x3, true);
    var x5 := StoreContactStage(x4, false);
    var x6 := StoreContactStage(x5, true);
    var x7 := StoreProfileStage(x6);
    assert x7 == StoreProfileGraph(st, profile);
    assert x6.Done? && x5.Done? && x4.Done? && x3.Done? && x2.Done? && x1.Done?;
    assert x4.value.person == x5.value.person;
    assert HasParts(x1.value.contact.value) <==> HasParts(profile.contact.value);
    assert HasParts(x2.value.contact.value) <==> HasParts(profile.contact.value);
    assert HasParts(x3.value.contact.value) <==> HasParts(profile.contact.value);
    assert HasParts(x4.value.contact.value) <==> HasParts(profile.contact.value);
    assert HasParts(x2.value.person.value) <==> HasParts(profile.person.value);
    assert HasParts(x3.value.person.value) <==> HasParts(profile.person.value);
    assert HasParts(x4.value.person.value) <==> HasParts(profile.person.value);
  }

  /** A stored profile wrote exactly one statement on each table of GraphTables, in
      that order, after what the log already held. */
  lemma GraphStoredLog(st: State, profile: Profile)
    requires StoreProfileGraph(st, profile).Done?
    ensures LogGrew(st.log, StoreProfileGraph(st, profile).st.log, GraphTables, false)
  {
    GraphStoredShape(st, profile);
    var x1 := StorePersonStage(Done(profile, st), false);
    var x2 := StorePersonStage(x1, true);
    var x3 := StoreOrganizationStage(x2, false);
    var x4 := StoreOrganizationStage(x3, true);
    var x5 := StoreContactStage(x4, false);
    var x6 := StoreContactStage(x5, true);
    var x7 := StoreProfileStage(x6);
    assert x7 == StoreProfileGraph(st, profile);
    assert x6.Done? && x5.Done? && x4.Done? && x3.Done? && x2.Done? && x1.Done?;
    assert x1.value.person == profile.person && x3.value.person == x2.value.person;
    assert x2.value.contact == x1.value.contact && x4.value.contact == x3.value.contact;
    assert LogGrew(st.log, st.log, [], false);
    LogGrewStep(st.log, st.log, x1.st.log, [], "person", false);
    var ts1 := [] + ["person"];
    LogGrewStep(st.log, x1.st.log, x2.st.log, ts1, "person", false);
    var ts2 := ts1 + ["person"];
    LogGrewStep(st.log, x2.st.log, x3.st.log, ts2, "organization", false);
    var ts3 := ts2 + ["organization"];
    LogGrewStep(st.log, x3.st.log, x4.st.log, ts3, "organization", false);
    var ts4 := ts3 + ["organization"];
    LogGrewStep(st.log, x4.st.log, x5.st.log, ts4, "contact", false);
    var ts5 := ts4 + ["contact"];
    LogGrewStep(st.log, x5.st.log, x6.st.log, ts5, "contact", false);
    var ts6 := ts5 + ["contact"];
    LogGrewStep(st.log, x6.st.log, x7.st.log, ts6, "profile", false);
    GraphTablesInOrder();
  }

  /** The two meanings of profile_person_id: the stored profile row holds the owner
      CONTACT's id, and the owner contact's row holds the owner; the statement
      logged for the profile carries the id of the owner's PERSON instead. */
  lemma GraphStoredRows(st: State, profile: Profile)
    requires StoreProfileGraph(st, profile).Done?
    ensures var r := StoreProfileGraph(st, profile);
      var owner := r.value.person.value;
      && r.value.id in r.st.db.profile.rows
      && (r.value.id in st.db.profile.rows ==>
            r.st.db.profile.rows[r.value.id] == ProfileUpdated(st.db.profile.rows[r.value.id], r.value))
      && (r.value.id !in st.db.profile.rows ==> r.st.db.profile.rows[r.value.id] == ProfileColumns(r.value))
      && r.st.db.profile.rows[r.value.id].profilePersonId == owner.id
      && owner.id in r.st.db.contact.rows && r.st.db.contact.rows[owner.id] == ContactColumns(owner)
      && owner.person.Some? && LoggedPersonId(r.value) == Some(owner.person.value.id)
      && ProfileValues(r.value).Some? && ProfileAssignments(r.value).Some?
      && (Last(r.st.log) == UpdateSql("profile", ProfileAssignments(r.value).value, r.value.id)
          || Last(r.st.log) == InsertSql("profile", r.value.id, ProfileValues(r.value).value))
  {
    var x1 := StorePersonStage(Done(profile, st), false);
    var x2 := StorePersonStage(x1, true);
    var x3 := StoreOrganizationStage(x2, false);
    var x4 := StoreOrganizationStage(x3, true);
    var x5 := StoreContactStage(x4, false);
    var x6 := StoreContactStage(x5, true);
    var x7 := StoreProfileStage(x6);
    assert x7 == StoreProfileGraph(st, profile);
    assert x6.Done? && x7.value.person == x6.value.person;
    assert x6.st.db.profile == st.db.profile;
  }

  /** Without write failures, a profile is stored exactly when every object it needs
      is present; a missing one always aborts it. */
  lemma GraphStoredIffComplete(st: State, profile: Profile)
    requires st.faults == []
    ensures StoreProfileGraph(st, profile).Done? <==> Complete(profile)
  {
    if Complete(profile) {
      var x1 := StorePersonStage(Done(profile, st), false);
      var x2 := StorePersonStage(x1, true);
      var x3 := StoreOrganizationStage(x2, false);
      var x4 := StoreOrganizationStage(x3, true);
      var x5 := StoreContactStage(x4, false);
      var x6 := StoreContactStage(x5, true);
      assert x1.Done? && x2.Done? && x3.Done? && x4.Done?;
      assert HasParts(x4.value.contact.value) && HasParts(x4.value.person.value);
      assert x5.Done? && x5.value.person == x4.value.person;
      assert x6.Done? && x6.value.project == profile.project;
      assert StoreProfileStage(x6).Done?;
    }
    if StoreProfileGraph(st, profile).Done? {
      GraphStoredShape(st, profile);
    }
  }

  /** A complete profile whose objects all carry unset ids (zero or below: generated
      keys are positive, so no such id is ever found) is inserted whole when no
      write fails: seven INSERTs on the tables of GraphTables, and every object
      comes back with a generated key. */
  lemma NewGraphInserted(st: State, profile: Profile)
    requires Complete(profile) && st.faults == []
    requires profile.id <= 0 && profile.contact.value.id <= 0 && profile.person.value.id <= 0
    requires profile.contact.value.person.value.id <= 0 && profile.contact.value.organization.value.id <= 0
    requires profile.person.value.person.value.id <= 0 && profile.person.value.organization.value.id <= 0
    ensures var r := StoreProfileGraph(st, profile);
      && r.Done?
      && LogGrew(st.log, r.st.log, GraphTables, true)
      && r.value.id > 0 && r.value.contactId > 0 && r.value.profilePersonId > 0
      && r.value.contact.value.person.value.id > 0 && r.value.contact.value.organization.value.id > 0
      && r.value.person.value.person.value.id > 0 && r.value.person.value.organization.value.id > 0
  {
    GraphStoredIffComplete(st, profile);
    GraphStoredShape(st, profile);
    var x1 := StorePersonStage(Done(profile, st), false);
    var x2 := StorePersonStage(x1, true);
    var x3 := StoreOrganizationStage(x2, false);
    var x4 := StoreOrganizationStage(x3, true);
    var x5 := StoreContactStage(x4, false);
    var x6 := StoreContactStage(x5, true);
    var x7 := StoreProfileStage(x6);
    assert x7 == StoreProfileGraph(st, profile);
    assert x1.Done? && x1.st.faults == [] && x1.value.person == profile.person;
    assert x2.Done? && x2.st.faults == [] && x2.value.contact == x1.value.contact;
    assert x3.Done? && x3.st.faults == [] && x3.value.person == x2.value.person;
    assert x4.Done? && x4.st.faults == [] && x4.value.contact == x3.value.contact;
    assert x5.Done? && x5.st.faults == [] && x5.value.person == x4.value.person;
    assert x6.Done? && x6.value.contact == x5.value.contact;
    assert LogGrew(st.log, st.log, [], true);
    LogGrewStep(st.log, st.log, x1.st.log, [], "person", true);
    var ts1 := [] + ["person"];
    LogGrewStep(st.log, x1.st.log, x2.st.log, ts1, "person", true);
    var ts2 := ts1 + ["person"];
    LogGrewStep(st.log, x2.st.log, x3.st.log, ts2, "organization", true);
    var ts3 := ts2 + ["organization"];
    LogGrewStep(st.log, x3.st.log, x4.st.log, ts3, "organization", true);
    var ts4 := ts3 + ["organization"];
    LogGrewStep(st.log, x4.st.log, x5.st.log, ts4, "contact", true);
    var ts5 := ts4 + ["contact"];
    LogGrewStep(st.log, x5.st.log, x6.st.log, ts5, "contact", true);
    var ts6 := ts5 + ["contact"];
    LogGrewStep(st.log, x6.st.log, x7.st.log, ts6, "profile", true);
    GraphTablesInOrder();
  }

  /** Whatever happens to a profile, the statements already in the log stay there,
      including when it aborts part-way. */
  lemma GraphExtendsLog(st: State, profile: Profile)
    ensures Extends(st.log, StoreProfileGraph(st, profile).st.log)
  {
    if HasContacts(profile) {
      var x0: Stored<Profile> := Done(profile, st);
      var x1 := StorePersonStage(x0, false);
      var x2 := StorePersonStage(x1, true);
      var x3 := StoreOrganizationStage(x2, false);
      var x4 := StoreOrganizationStage(x3, true);
      var x5 := StoreContactStage(x4, false);
      var x6 := StoreContactStage(x5, true);
      var x7 := StoreProfileStage(x6);
      ExtendsTransitive(st.log, x1.st.log, x2.st.log);
      ExtendsTransitive(st.log, x2.st.log, x3.st.log);
      ExtendsTransitive(st.log, x3.st.log, x4.st.log);
      ExtendsTransitive(st.log, x4.st.log, x5.st.log);
      ExtendsTransitive(st.log, x5.st.log, x6.st.log);
      ExtendsTransitive(st.log, x6.st.log, x7.st.log);
    }
  }

  // ---------------------------------------------------------------------------
  // The batch
  // ---------------------------------------------------------------------------

  /** The profiles stored, as the caller's objects end up, the state, and the
      exception that ended the loop, if one did. */
  datatype Run = Run(stored: seq<Profile>, st: State, thrown: Option<Thrown>)

  /** The loop of storeBaggerUpdates, for any way of storing one profile: profiles
      in order, up to the first exception. */
  function StoreEach(store: (State, Profile) -> Stored<Profile>, st: State, profiles: seq<Profile>): (r: Run)
    ensures r.thrown.None? ==> |r.stored| == |profiles|
    ensures r.thrown.Some? ==> |r.stored| < |profiles|
    decreases |profiles|
  {
    if profiles == [] then Run([], st, None)
    else
      match store(st, profiles[0])
      case Threw(e, s) => Run([], s, Some(e))
      case Done(p, s) =>
        var rest := StoreEach(store, s, profiles[1..]);
        Run([p] + rest.stored, rest.st, rest.thrown)
  }

  /** The loop of storeBaggerUpdates over its profiles. */
  function StoreAll(st: State, profiles: seq<Profile>): (r: Run)
    ensures r.thrown.None? ==> |r.stored| == |profiles|
    ensures r.thrown.Some? ==> |r.stored| < |profiles|
  {
    StoreEach(StoreProfileGraph, st, profiles)
  }

  lemma {:induction false} StoreEachKeeps(store: (State, Profile) -> Stored<Profile>, ok: (Profile, Profile) -> bool,
                                          st: State, profiles: seq<Profile>)
    requires forall s: State, p: Profile :: store(s, p).Done? ==> ok(p, store(s, p).value)
    ensures var r := StoreEach(store, st, profiles);
      forall i :: 0 <= i < |r.stored| ==> ok(profiles[i], r.stored[i])
    decreases |profiles|
  {
    if profiles != [] {
      var head := store(st, profiles[0]);
      if head.Done? {
        StoreEachKeeps(store, ok, head.st, profiles[1..]);
      }
    }
  }

  lemma {:induction false} StoreEachExtendsLog(store: (State, Profile) -> Stored<Profile>, st: State, profiles: seq<Profile>)
    requires forall s: State, p: Profile :: Extends(s.log, store(s, p).st.log)
    ensures Extends(st.log, StoreEach(store, st, profiles).st.log)
    decreases |profiles|
  {
    if profiles != [] {
      var head := store(st, profiles[0]);
      if head.Done? {
        StoreEachExtendsLog(store, head.st, profiles[1..]);
        ExtendsTransitive(st.log, head.st.log, StoreEach(store, head.st, profiles[1..]).st.log);
      }
    }
  }

  lemma {:induction false} StoreEachLogLength(store: (State, Profile) -> Stored<Profile>, n: nat, st: State, profiles: seq<Profile>)
    requires forall s: State, p: Profile :: store(s, p).Done? ==> |store(s, p).st.log| == |s.log| + n
    requires StoreEach(store, st, profiles).thrown.None?
    ensures |StoreEach(store, st, profiles).st.log| == |st.log| + n * |profiles|
    decreases |profiles|
  {
    if profiles != [] {
      StoreEachLogLength(store, n, store(st, profiles[0]).st, profiles[1..]);
    }
  }

  lemma {:induction false} StoreEachAbortSkipsRest(store: (State, Profile) -> Stored<Profile>, st: State,
                                                   profiles: seq<Profile>, later: seq<Profile>)
    requires StoreEach(store, st, profiles).thrown.Some?
    ensures StoreEach(store, st, profiles + later) == StoreEach(store, st, profiles)
    decreases |profiles|
  {
    assert (profiles + later)[0] == profiles[0];
    var head := store(st, profiles[0]);
    if head.Done? {
      assert (profiles + later)[1..] == profiles[1..] + later;
      StoreEachAbortSkipsRest(store, head.st, profiles[1..], later);
    }
  }

  lemma {:induction false} StoreEachAppend(store: (State, Profile) -> Stored<Profile>, st: State,
                                           profiles: seq<Profile>, later: seq<Profile>)
    requires StoreEach(store, st, profiles).thrown.None?
    ensures var first := StoreEach(store, st, profiles);
      var second := StoreEach(store, first.st, later);
      StoreEach(store, st, profiles + later) == Run(first.stored + second.stored, second.st, second.thrown)
    decreases |profiles|
  {
    if profiles == [] {
      assert profiles + later == later;
    } else {
      assert (profiles + later)[0] == profiles[0];
      assert (profiles + later)[1..] == profiles[1..] + later;
      var head := store(st, profiles[0]);
      StoreEachAppend(store, head.st, profiles[1..], later);
      var rest := StoreEach(store, head.st, profiles[1..]);
      var second := StoreEach(store, rest.st, later);
      assert [head.value] + (rest.stored + second.stored) == ([head.value] + rest.stored) + second.stored;
    }
  }

  /** Every profile the batch stored had its foreign keys re-derived from the
      objects stored with it, and kept its username and project. */
  lemma StoreAllKeysDerived(st: State, profiles: seq<Profile>)
    ensures var r := StoreAll(st, profiles);
      forall i :: 0 <= i < |r.stored| ==>
        KeysDerived(r.stored[i]) && r.stored[i].username == profiles[i].username && r.stored[i].project == profiles[i].project
  {
    var ok := (p: Profile, q: Profile) => KeysDerived(q) && q.username == p.username && q.project == p.project;
    forall s: State, p: Profile | StoreProfileGraph(s, p).Done?
      ensures ok(p, StoreProfileGraph(s, p).value)
    {
      GraphStoredShape(s, p);
    }
    StoreEachKeeps(StoreProfileGraph, ok, st, profiles);
  }

  /** The batch only appends to the log, whether it runs to the end or aborts. */
  lemma StoreAllExtendsLog(st: State, profiles: seq<Profile>)
    ensures Extends(st.log, StoreAll(st, profiles).st.log)
  {
    forall s: State, p: Profile
      ensures Extends(s.log, StoreProfileGraph(s, p).st.log)
    {
      GraphExtendsLog(s, p);
    }
    StoreEachExtendsLog(StoreProfileGraph, st, profiles);
  }

  /** A batch that runs to the end wrote exactly seven statements per profile. */
  lemma StoreAllLogLength(st: State, profiles: seq<Profile>)
    requires StoreAll(st, profiles).thrown.None?
    ensures |StoreAll(st, profiles).st.log| == |st.log| + 7 * |profiles|
  {
    forall s: State, p: Profile | StoreProfileGraph(s, p).Done?
      ensures |StoreProfileGraph(s, p).st.log| == |s.log| + 7
    {
      GraphStoredLog(s, p);
      LogGrewEntries(s.log, StoreProfileGraph(s, p).st.log, GraphTables, false);
    }
    StoreEachLogLength(StoreProfileGraph, 7, st, profiles);
  }

  /** The first exception ends the batch: the profiles after it are never looked at. */
  lemma AbortSkipsRest(st: State, profiles: seq<Profile>, later: seq<Profile>)
    requires StoreAll(st, profiles).thrown.Some?
    ensures StoreAll(st, profiles + later) == StoreAll(st, profiles)
  {
    StoreEachAbortSkipsRest(StoreProfileGraph, st, profiles, later);
  }

  /** Storing two lists in one batch is storing the first, then the second from
      where the first left off. */
  lemma StoreAllAppend(st: State, profiles: seq<Profile>, later: seq<Profile>)
    requires StoreAll(st, profiles).thrown.None?
    ensures var first := StoreAll(st, profiles);
      var second := StoreAll(first.st, later);
      StoreAll(st, profiles + later) == Run(first.stored + second.stored, second.st, second.thrown)
  {
    StoreEachAppend(StoreProfileGraph, st, profiles, later);
  }

  // ---------------------------------------------------------------------------
  // storeBaggerUpdates and write
  // ---------------------------------------------------------------------------

  /** getMessage() of what the loop threw: a NullPointerException raised by the
      runtime carries no message on the Java versions this code was written for,
      and a null message concatenates as "null". */
  function Message(e: Thrown): (m: string)
    ensures e.NullReference? ==> m == "null"
    ensures e.Unsupported? ==> m == e.message
  {
    match e
    case NullReference => "null"
    case Unsupported(message) => message
  }

  predicate IsNewline(c: char) {
    c == '\n'
  }

  const ReplayFileName: string := "bagger.sql"

  /** A file written: its directory, its name and its whole content. */
  datatype ReplayFile = ReplayFile(directory: string, name: string, content: string)

  /** write(homeDir): a null message and the file, or the IOException's message and
      no file. ioError stands for the exception the file system raises, if any. */
  datatype Written = Written(message: Option<string>, file: Option<ReplayFile>)

  function Write(log: seq<string>, homeDir: string, ioError: Option<string>): (w: Written)
    ensures w.message.None? <==> ioError.None?
    ensures w.file.Some? <==> ioError.None?
    ensures ioError.Some? ==> w.message == Some("JdbcBagger.write: " + ioError.value)
    ensures w.file.Some? ==>
      && w.file.value.directory == homeDir && w.file.value.name == ReplayFileName
      && (log == [] <==> w.file.value.content == [])
      && (log != [] ==> IsNewline(w.file.value.content[|w.file.value.content| - 1]))
  {
    match ioError
    case Some(m) => Written(Some("JdbcBagger.write: " + m), None)
    case None => Written(None, Some(ReplayFile(homeDir, ReplayFileName, Tokens.Terminated(log, '\n'))))
  }

  /** Reading the file back line by line gives the log, provided no statement is
      empty or holds a line break (the values are inlined unescaped, so a name with
      a line break would split its statement). */
  lemma WriteRoundTrip(log: seq<string>, homeDir: string)
    requires Tokens.WellFormed(log, IsNewline)
    ensures Tokens.Runs(Write(log, homeDir, None).file.value.content, IsNewline) == log
  {
    Tokens.RunsOfTerminated(log, '\n', IsNewline);
  }

  /** What storeBaggerUpdates returns (a null message on success), the profiles as
      the caller's objects end up, the state, and the file written, if any. */
  datatype Outcome = Outcome(message: Option<string>, stored: seq<Profile>, st: State, file: Option<ReplayFile>)

  function StoreBaggerUpdates(st: State, profiles: seq<Profile>, homeDir: string, ioError: Option<string>): (o: Outcome)
    ensures o.message.None? <==> StoreAll(st, profiles).thrown.None? && ioError.None?
    ensures o.file.Some? <==> o.message.None?
    ensures StoreAll(st, profiles).thrown.Some? ==>
      o.message == Some("JdbcBagger.storeBaggerUpdates exception: " + Message(StoreAll(st, profiles).thrown.value))
    ensures StoreAll(st, profiles).thrown.None? && ioError.Some? ==>
      o.message == Some("JdbcBagger.write: " + ioError.value)
    ensures o.file.Some? ==> o.file.value.content == Tokens.Terminated(o.st.log, '\n') && |o.stored| == |profiles|
    ensures o.st == StoreAll(st, profiles).st
  {
    var run := StoreAll(st, profiles);
    match run.thrown
    case Some(e) => Outcome(Some("JdbcBagger.storeBaggerUpdates exception: " + Message(e)), run.stored, run.st, None)
    case None =>
      var w := Write(run.st.log, homeDir, ioError);
      Outcome(w.message, run.stored, run.st, w.file)
  }

  /** A longer log renders to a longer file with the shorter one's file at its start. */
  lemma RenderingKeepsPrefix(log: seq<string>, longer: seq<string>)
    requires Extends(log, longer)
    ensures HasPrefix(Tokens.Terminated(longer, '\n'), Tokens.Terminated(log, '\n'))
  {
    var tail := longer[|log|..];
    assert longer == log + tail;
    Tokens.TerminatedAppend(log, tail, '\n');
    PrefixOfAppend(Tokens.Terminated(log, '\n'), Tokens.Terminated(tail, '\n'));
  }

  /** The log is never cleared: the file a later batch writes starts with the whole
      file an earlier one wrote, even when batches in between aborted. */
  lemma LogNeverCleared(st: State, profiles: seq<Profile>, later: State, laterProfiles: seq<Profile>, homeDir: string)
    requires Extends(StoreBaggerUpdates(st, profiles, homeDir, None).st.log, later.log)
    requires StoreBaggerUpdates(st, profiles, homeDir, None).file.Some?
    requires StoreBaggerUpdates(later, laterProfiles, homeDir, None).file.Some?
    ensures HasPrefix(StoreBaggerUpdates(later, laterProfiles, homeDir, None).file.value.content,
                      StoreBaggerUpdates(st, profiles, homeDir, None).file.value.content)
  {
    var first := StoreBaggerUpdates(st, profiles, homeDir, None);
    var second := StoreBaggerUpdates(later, laterProfiles, homeDir, None);
    StoreAllExtendsLog(later, laterProfiles);
    ExtendsTransitive(first.st.log, later.log, second.st.log);
    RenderingKeepsPrefix(first.st.log, second.st.log);
  }
}
