/** The profile server actions over the student-profile table: username
    availability, the upsert the setup wizard submits, and reading the current
    user's profile. The table is a sequence of rows held by `ProfileStore`; the
    session's user id and a failing query are inputs. */
module Profiles {
  import opened Js
  import opened Seqs
  import opened Schema
  import opened ProfileCheck
  import opened Validator

  datatype ActionResult = Success | Failure(message: string)

  const CreateFailedMessage: string := "Failed to create student profile"

  /** An optional form field as an update or insert value: an absent field is
      left out of the statement. */
  function AsSupplied(v: Option<string>): Supplied<Option<string>> {
    if v.None? then Omitted else Given(v)
  }

  /** One row after the update's `SET`: a column whose value is left out keeps
      its old value. */
  function UpdatedRow(p: StudentProfile, form: ProfileFormData): StudentProfile {
    p.(username := form.username,
       grade := Some(form.grade),
       ageGroup := Some(form.ageGroup),
       school := Column(AsSupplied(form.school), p.school),
       avatarColor := Column(AsSupplied(form.avatarColor), p.avatarColor),
       isCompleted := Some(true))
  }

  /** `UPDATE ... SET ... WHERE userId = uid`, before constraints are checked. */
  function UpdateRowsOf(rows: seq<StudentProfile>, uid: string, form: ProfileFormData): (r: seq<StudentProfile>)
    ensures |r| == |rows|
    ensures forall i :: 0 <= i < |rows| ==>
      r[i] == if rows[i].userId == uid then UpdatedRow(rows[i], form) else rows[i]
  {
    seq(|rows|, i requires 0 <= i < |rows| =>
      if rows[i].userId == uid then UpdatedRow(rows[i], form) else rows[i])
  }

  /** The values the insert supplies. */
  function NewProfileValues(uid: string, form: ProfileFormData): ProfileInsert {
    ProfileInsert(uid, form.username, Given(Some(form.grade)), Given(Some(form.ageGroup)),
                  AsSupplied(form.school), AsSupplied(form.avatarColor), Given(Some(true)))
  }

  /** The table the upsert writes when it commits: the user's rows updated if
      there are any, otherwise one new row with serial id `nextId`. */
  function Upserted(rows: seq<StudentProfile>, uid: string, form: ProfileFormData, nextId: int): (r: seq<StudentProfile>)
    ensures |r| == |rows| || |r| == |rows| + 1
    ensures forall i :: 0 <= i < |rows| && rows[i].userId != uid ==> r[i] == rows[i]
  {
    if ProfileOf(rows, uid).Some? then UpdateRowsOf(rows, uid, form)
    else rows + [InsertedProfile(nextId, NewProfileValues(uid, form))]
  }

  /** No row of another user holds `username`. */
  predicate UsernameFreeFor(rows: seq<StudentProfile>, uid: string, username: string) {
    forall p :: p in rows && p.username == username ==> p.userId == uid
  }

  /** The user owns at most one row. */
  predicate AtMostOneProfile(rows: seq<StudentProfile>, uid: string) {
    forall i, j :: 0 <= i < |rows| && 0 <= j < |rows| && rows[i].userId == uid && rows[j].userId == uid ==> i == j
  }

  /** The upsert commits when there is a session user id, the queries succeed
      and the written table keeps usernames unique. */
  predicate CreateSucceeds(rows: seq<StudentProfile>, sessionUserId: Option<string>, form: ProfileFormData,
                           nextId: int, queryFails: bool) {
    Truthy(sessionUserId) && !queryFails && Unique(Upserted(rows, sessionUserId.value, form, nextId), ProfileUsername)
  }

  /** The create reaches the insert: a session user id, a lookup that
      succeeds and no row of the user yet. The serial column draws its next
      value there, whether or not the unique username column then rejects the
      row. */
  predicate InsertReached(rows: seq<StudentProfile>, sessionUserId: Option<string>, queryFails: bool) {
    Truthy(sessionUserId) && !queryFails && ProfileOf(rows, sessionUserId.value).None?
  }

  class ProfileStore {
    var rows: seq<StudentProfile>
    var nextId: int

    /** The username and id columns are unique and the serial is ahead of every id. */
    ghost predicate Valid()
      reads this
    {
      Unique(rows, ProfileUsername) && Unique(rows, ProfileId) && forall p :: p in rows ==> p.id < nextId
    }

    constructor ()
      ensures Valid() && rows == [] && nextId == 1
    {
      rows := [];
      nextId := 1;
    }

    /** `checkUsernameAvailability`: available exactly when the query succeeds
        and no row holds that exact username. */
    function UsernameAvailable(username: string, queryFails: bool): (available: bool)
      reads this
      ensures available <==> !queryFails && forall p :: p in rows ==> p.username != username
    {
      !queryFails && FirstWhere(rows, (p: StudentProfile) => p.username == username).None?
    }

    /** `getCurrentUserProfile`: null without a session user id or when the
        query fails, otherwise the first row of the user, or null. */
    function CurrentUserProfile(sessionUserId: Option<string>, queryFails: bool): (r: Option<StudentProfile>)
      reads this
      ensures !Truthy(sessionUserId) || queryFails ==> r.None?
      ensures r.Some? ==> r.value in rows && r.value.userId == sessionUserId.value
      ensures Truthy(sessionUserId) && !queryFails && r.None? ==> forall p :: p in rows ==> p.userId != sessionUserId.value
    {
      if !Truthy(sessionUserId) || queryFails then None
      else ProfileOf(rows, sessionUserId.value)
    }

    /** `createStudentProfile`: on success the table is the upserted one; on any
        failure (no session user id, a failing lookup, a username the unique
        column rejects) it fails with one generic message and leaves the rows
        as they were. An insert that was attempted has used up one serial
        value, even when it was rejected. */
    method CreateStudentProfile(sessionUserId: Option<string>, form: ProfileFormData, queryFails: bool)
      returns (result: ActionResult)
      requires Valid()
      modifies this
      ensures Valid()
      ensures result.Success? <==> CreateSucceeds(old(rows), sessionUserId, form, old(nextId), queryFails)
      ensures result.Failure? ==> result.message == CreateFailedMessage && rows == old(rows)
      ensures nextId == old(nextId) + (if InsertReached(old(rows), sessionUserId, queryFails) then 1 else 0)
      ensures result.Success? ==> rows == Upserted(old(rows), sessionUserId.value, form, old(nextId))
    {
      if !Truthy(sessionUserId) || queryFails {
        return Failure(CreateFailedMessage);
      }
      var uid := sessionUserId.value;
      var existing := ProfileOf(rows, uid);
      var written: seq<StudentProfile>;
      var inserted := false;
      if existing.Some? {
        written := UpdateRowsOf(rows, uid, form);
      } else {
        written := rows + [InsertedProfile(nextId, NewProfileValues(uid, form))];
        inserted := true;
      }
      UpsertKeepsIds(rows, uid, form, nextId);
      if inserted {
        nextId := nextId + 1;
      }
      if !Unique(written, ProfileUsername) {
        return Failure(CreateFailedMessage);
      }
      rows := written;
      result := Success;
    }
  }

  /** The two forms of the example below. */
  function AdaForm(): ProfileFormData { ProfileFormData("ada", "3", "5-7", None, None) }
  function BobForm(): ProfileFormData { ProfileFormData("bob", "3", "5-7", None, None) }

  /** u1 takes "ada" on the empty table; u2 then reaches the insert for "ada"
      and the unique column refuses it. */
  lemma AdaTakenByFirstUser()
    ensures CreateSucceeds([], Some("u1"), AdaForm(), 1, false)
    ensures var rows := Upserted([], "u1", AdaForm(), 1);
      && rows == [InsertedProfile(1, NewProfileValues("u1", AdaForm()))]
      && InsertReached(rows, Some("u2"), false)
      && !CreateSucceeds(rows, Some("u2"), AdaForm(), 2, false)
  {
    var rows := Upserted([], "u1", AdaForm(), 1);
    assert rows[0].userId == "u1";
    var after := Upserted(rows, "u2", AdaForm(), 2);
    assert after[0].username == after[1].username;
  }

  /** u2 then takes "bob", and the row gets the serial value 3. */
  lemma BobGetsThirdSerial()
    ensures var rows := [InsertedProfile(1, NewProfileValues("u1", AdaForm()))];
      && CreateSucceeds(rows, Some("u2"), BobForm(), 3, false)
      && Upserted(rows, "u2", BobForm(), 3)[1].id == 3
      && Upserted(rows, "u2", BobForm(), 3)[1].userId == "u2"
      && |Upserted(rows, "u2", BobForm(), 3)| == 2
  {
    var rows := [InsertedProfile(1, NewProfileValues("u1", AdaForm()))];
    assert rows[0].userId == "u1";
    var after := Upserted(rows, "u2", BobForm(), 3);
    assert after == rows + [InsertedProfile(3, NewProfileValues("u2", BobForm()))];
  }

  /** A rejected insert still uses up its serial value: user u1 takes "ada";
      user u2 asks for "ada" and is refused, then takes "bob", and the profile
      u2 reads back has id 3, not 2. */
  method RejectedInsertSkipsSerial() returns (storedId: int)
    ensures storedId == 3
  {
    var store := new ProfileStore();
    AdaTakenByFirstUser();
    BobGetsThirdSerial();
    var first := store.CreateStudentProfile(Some("u1"), AdaForm(), false);
    var second := store.CreateStudentProfile(Some("u2"), AdaForm(), false);
    var third := store.CreateStudentProfile(Some("u2"), BobForm(), false);
    var current := store.CurrentUserProfile(Some("u2"), false);
    assert store.rows[0].userId == "u1" && store.rows[1] in store.rows;
    storedId := current.value.id;
  }

  /** The upsert never changes an id, and a new row takes the serial's value. */
  lemma UpsertKeepsIds(rows: seq<StudentProfile>, uid: string, form: ProfileFormData, nextId: int)
    requires Unique(rows, ProfileId) && forall p :: p in rows ==> p.id < nextId
    ensures var r := Upserted(rows, uid, form, nextId);
      && Unique(r, ProfileId)
      && forall p :: p in r ==> p.id < nextId + (if ProfileOf(rows, uid).Some? then 0 else 1)
    ensures ProfileOf(rows, uid).None? ==> Upserted(rows, uid, form, nextId)[|rows|].id == nextId
  {
    var r := Upserted(rows, uid, form, nextId);
    if ProfileOf(rows, uid).Some? {
      assert forall i :: 0 <= i < |r| ==> r[i].id == rows[i].id;
    } else {
      assert forall i :: 0 <= i < |rows| ==> r[i] == rows[i];
    }
  }

  /** What the upsert writes: with rows for the user, every one of them takes
      the form's fields and is marked completed and nothing is added; without,
      exactly one completed row of the user is appended. Rows of other users
      stay where they were, unchanged. */
  lemma UpsertShape(rows: seq<StudentProfile>, uid: string, form: ProfileFormData, nextId: int)
    ensures var r := Upserted(rows, uid, form, nextId);
      && (forall i :: 0 <= i < |rows| && rows[i].userId != uid ==> r[i] == rows[i])
      && (forall p :: p in r && p.userId == uid ==>
            && p.username == form.username && p.grade == Some(form.grade) && p.ageGroup == Some(form.ageGroup)
            && p.isCompleted == Some(true))
    ensures ProfileOf(rows, uid).Some? ==> |Upserted(rows, uid, form, nextId)| == |rows|
    ensures ProfileOf(rows, uid).None? ==>
      && |Upserted(rows, uid, form, nextId)| == |rows| + 1
      && Upserted(rows, uid, form, nextId)[|rows|].userId == uid
      && Upserted(rows, uid, form, nextId)[|rows|].school == form.school
      && Upserted(rows, uid, form, nextId)[|rows|].avatarColor == form.avatarColor
  {
    var r := Upserted(rows, uid, form, nextId);
    if ProfileOf(rows, uid).None? {
      assert forall j :: 0 <= j < |rows| ==> r[j] == rows[j] && rows[j] in rows;
    }
  }

  /** After the upsert commits, the user's first row is a completed one, so the
      profile-check endpoint answers `hasProfile: true`. */
  lemma {:induction false} UpsertCompletesProfile(rows: seq<StudentProfile>, uid: string, form: ProfileFormData, nextId: int)
    requires uid != ""
    ensures var r := Upserted(rows, uid, form, nextId);
      && ProfileOf(r, uid).Some?
      && ProfileOf(r, uid).value.isCompleted == Some(true)
      && ProfileOf(r, uid).value.username == form.username
      && CheckProfile(Some(uid), r, false) == CheckResponse(200, Some(true))
  {
    var r := Upserted(rows, uid, form, nextId);
    var owned := OwnedBy(uid);
    if found :| found in rows && found.userId == uid {
      var i :| 0 <= i < |rows| && rows[i] == found;
      var k := LeastIndex(rows, owned, i);
      assert ProfileOf(rows, uid).Some?;
      FirstWhereIsFirst(r, owned, k);
    } else {
      assert ProfileOf(rows, uid).None?;
      assert forall j :: 0 <= j < |rows| ==> r[j] == rows[j] && rows[j] in rows;
      FirstWhereIsFirst(r, owned, |rows|);
    }
  }

  /** The unique username column accepts the upsert exactly when no row of
      another user holds the new username and the user owns at most one row
      (an update gives all the user's rows the same username). */
  lemma {:induction false} UpsertUniqueIff(rows: seq<StudentProfile>, uid: string, form: ProfileFormData, nextId: int)
    requires Unique(rows, ProfileUsername)
    ensures Unique(Upserted(rows, uid, form, nextId), ProfileUsername) <==>
      UsernameFreeFor(rows, uid, form.username) && AtMostOneProfile(rows, uid)
  {
    var r := Upserted(rows, uid, form, nextId);
    var u := form.username;
    if ProfileOf(rows, uid).Some? {
      var own := ProfileOf(rows, uid).value;
      var k :| 0 <= k < |rows| && rows[k] == own;
      assert r[k].username == u;
      if Unique(r, ProfileUsername) {
        forall j | 0 <= j < |rows| && j != k ensures r[j].username != u {
          if j < k { assert ProfileUsername(r[j]) != ProfileUsername(r[k]); }
          else { assert ProfileUsername(r[k]) != ProfileUsername(r[j]); }
        }
      }
      if UsernameFreeFor(rows, uid, u) && AtMostOneProfile(rows, uid) {
        forall i, j | 0 <= i < j < |r| ensures ProfileUsername(r[i]) != ProfileUsername(r[j]) {
          if rows[i].userId == uid {
            assert rows[j].userId != uid;
            assert rows[j] in rows;
          } else if rows[j].userId == uid {
            assert rows[i] in rows;
          }
        }
      }
    } else {
      assert forall j :: 0 <= j < |rows| ==> r[j] == rows[j] && rows[j] in rows && rows[j].userId != uid;
      assert r[|rows|].username == u;
      if Unique(r, ProfileUsername) {
        forall j | 0 <= j < |rows| ensures rows[j].username != u {
          assert ProfileUsername(r[j]) != ProfileUsername(r[|rows|]);
        }
      }
    }
  }

  /** A username reported available lets a user without a profile, or with a
      single one, complete the upsert; a username held by another user's row
      makes it fail. */
  lemma AvailabilityDecidesCreate(store: ProfileStore, uid: string, form: ProfileFormData)
    requires store.Valid() && uid != ""
    ensures store.UsernameAvailable(form.username, false) && AtMostOneProfile(store.rows, uid) ==>
      CreateSucceeds(store.rows, Some(uid), form, store.nextId, false)
    ensures (exists p :: p in store.rows && p.username == form.username && p.userId != uid) ==>
      !CreateSucceeds(store.rows, Some(uid), form, store.nextId, false)
  {
    UpsertUniqueIff(store.rows, uid, form, store.nextId);
  }

  /** A form value can pass the profile schema and still leave the stored age
      group outside the three brackets the column is declared with. */
  lemma UpsertMayStoreUndeclaredAgeGroup(uid: string, nextId: int)
    ensures var form := ParseProfile(ProfileInput(Some("ada_l"), Some("3"), Some("14-16"), None, None));
      form.Some? && !AgeGroupTyped(Upserted([], uid, form.value, nextId)[0])
  {
    FormAdmitsBracketOutsideColumn();
  }
}
