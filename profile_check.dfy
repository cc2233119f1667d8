/** The profile-check endpoint: given the session's user id, reports whether
    that user has a completed student profile. The session is an input; a
    failing profile query is the flag `queryFails`. The endpoint only reads the
    profile table, which is why it is a function of the rows. */
module ProfileCheck {
  import opened Js
  import opened Seqs
  import opened Schema

  /** Status and the `hasProfile` field of the JSON body: true, false or null. */
  datatype CheckResponse = CheckResponse(status: int, hasProfile: Option<bool>)

  /** JavaScript truthiness of a JSON boolean that may be null. */
  predicate IsTrue(v: Option<bool>) {
    v == Some(true)
  }

  function OwnedBy(uid: string): StudentProfile -> bool {
    (p: StudentProfile) => p.userId == uid
  }

  /** The row a `WHERE userId = uid LIMIT 1` query returns, if any. */
  function ProfileOf(rows: seq<StudentProfile>, uid: string): (r: Option<StudentProfile>)
    ensures r.None? <==> forall p :: p in rows ==> p.userId != uid
    ensures r.Some? ==> r.value in rows && r.value.userId == uid
  {
    FirstWhere(rows, OwnedBy(uid))
  }

  /** The GET handler of the profile-check endpoint. */
  function CheckProfile(sessionUserId: Option<string>, rows: seq<StudentProfile>, queryFails: bool): (r: CheckResponse)
    ensures r.status == 200 || r.status == 401 || r.status == 500
    ensures r.status == 401 <==> !Truthy(sessionUserId)
    ensures r.status == 500 <==> Truthy(sessionUserId) && queryFails
    ensures r.status != 200 ==> r.hasProfile == Some(false)
    ensures r.status == 200 && ProfileOf(rows, sessionUserId.value).None? ==> r.hasProfile == Some(false)
    ensures r.status == 200 && ProfileOf(rows, sessionUserId.value).Some? ==>
      r.hasProfile == ProfileOf(rows, sessionUserId.value).value.isCompleted
  {
    if !Truthy(sessionUserId) then CheckResponse(401, Some(false))
    else if queryFails then CheckResponse(500, Some(false))
    else
      var found := ProfileOf(rows, sessionUserId.value);
      var hasProfile := if found.None? then Some(false) else found.value.isCompleted;
      CheckResponse(200, hasProfile)
  }

  /** `hasProfile` is truthy exactly when the session names a user, the query
      succeeds, and the first row of that user in the table is marked
      completed; a missing row, or a first row whose flag is false or null,
      gives a falsy answer. */
  lemma HasProfileIff(sessionUserId: Option<string>, rows: seq<StudentProfile>, queryFails: bool)
    ensures IsTrue(CheckProfile(sessionUserId, rows, queryFails).hasProfile) <==>
      && Truthy(sessionUserId) && !queryFails
      && exists i :: 0 <= i < |rows| && rows[i].userId == sessionUserId.value
                     && rows[i].isCompleted == Some(true)
                     && forall j :: 0 <= j < i ==> rows[j].userId != sessionUserId.value
  {
    if Truthy(sessionUserId) && !queryFails {
      var uid := sessionUserId.value;
      var p := OwnedBy(uid);
      if IsTrue(CheckProfile(sessionUserId, rows, queryFails).hasProfile) {
        var row := ProfileOf(rows, uid).value;
        var i :| 0 <= i < |rows| && rows[i] == row;
        var k := LeastIndex(rows, p, i);
        FirstWhereIsFirst(rows, p, k);
      } else {
        forall i | 0 <= i < |rows| && rows[i].userId == uid && rows[i].isCompleted == Some(true)
          ensures exists j :: 0 <= j < i && rows[j].userId == uid
        {
          if forall j :: 0 <= j < i ==> !p(rows[j]) {
            FirstWhereIsFirst(rows, p, i);
          }
        }
      }
    }
  }

  /** With one profile per user, the answer is that profile's flag. */
  lemma SingleProfileDecides(uid: string, rows: seq<StudentProfile>, p: StudentProfile)
    requires uid != "" && p in rows && p.userId == uid
    requires forall q :: q in rows && q.userId == uid ==> q == p
    ensures IsTrue(CheckProfile(Some(uid), rows, false).hasProfile) <==> p.isCompleted == Some(true)
  {
  }
}
