/** The `users` table row: its columns and defaults, its API dictionary and the lazily
    derived memory-partition key. */
module Models {
  import opened Wrappers

  /** A UTC instant, as `datetime.utcnow()` gives it; its ISO text is not modelled. */
  type Instant = int

  datatype User = User(
    id: string, email: string, username: string, passwordHash: string,
    firstName: Option<string>, lastName: Option<string>,
    createdAt: Option<Instant>, updatedAt: Option<Instant>, lastLogin: Option<Instant>,
    isActive: bool, isVerified: bool, mem0UserId: Option<string>, preferences: Option<string>)

  /** The row as the insert stores it: the given fields, both timestamps at the insert's
      instant, no login yet, active, unverified, no memory key and no preferences. */
  function InsertedUser(id: string, email: string, username: string, passwordHash: string,
                        firstName: Option<string>, lastName: Option<string>, now: Instant): (u: User)
    ensures u.isActive && !u.isVerified
    ensures u.mem0UserId.None? && u.lastLogin.None? && u.preferences.None?
    ensures u.createdAt == Some(now) && u.updatedAt == Some(now)
    ensures u.id == id && u.email == email && u.username == username && u.passwordHash == passwordHash
    ensures u.firstName == firstName && u.lastName == lastName
  {
    User(id, email, username, passwordHash, firstName, lastName,
         Some(now), Some(now), None, true, false, None, None)
  }

  /** A value of the API dictionary; `DTime` stands for the instant's ISO text. */
  datatype DictValue = DString(s: string) | DBool(b: bool) | DTime(t: Instant) | DNull

  const DictKeys: set<string> := {
    "id", "username", "email", "first_name", "last_name", "created_at",
    "last_login", "is_active", "is_verified", "mem0_user_id"}

  /** A nullable text column: None becomes null. */
  function OptionalText(o: Option<string>): (v: DictValue)
    ensures v == DNull <==> o.None?
    ensures o.Some? ==> v == DString(o.value)
  {
    match o
    case Some(s) => DString(s)
    case None => DNull
  }

  /** A nullable time column: None becomes null, an instant its ISO text. */
  function OptionalTime(o: Option<Instant>): (v: DictValue)
    ensures v == DNull <==> o.None?
    ensures o.Some? ==> v == DTime(o.value)
  {
    match o
    case Some(t) => DTime(t)
    case None => DNull
  }

  /** `to_dict`: the profile fields for API responses. */
  function ToDict(u: User): (d: map<string, DictValue>)
    ensures d.Keys == DictKeys
    ensures "password_hash" !in d && "updated_at" !in d && "preferences" !in d
    ensures d["id"] == DString(u.id) && d["email"] == DString(u.email) && d["username"] == DString(u.username)
    ensures d["is_active"] == DBool(u.isActive) && d["is_verified"] == DBool(u.isVerified)
    ensures d["first_name"] == OptionalText(u.firstName) && d["last_name"] == OptionalText(u.lastName)
    ensures d["mem0_user_id"] == OptionalText(u.mem0UserId)
    ensures d["created_at"] == OptionalTime(u.createdAt) && d["last_login"] == OptionalTime(u.lastLogin)
  {
    var d := map[
      "id" := DString(u.id),
      "username" := DString(u.username),
      "email" := DString(u.email),
      "first_name" := OptionalText(u.firstName),
      "last_name" := OptionalText(u.lastName),
      "created_at" := OptionalTime(u.createdAt),
      "last_login" := OptionalTime(u.lastLogin),
      "is_active" := DBool(u.isActive),
      "is_verified" := DBool(u.isVerified),
      "mem0_user_id" := OptionalText(u.mem0UserId)];
    assert d.Keys == DictKeys;
    d
  }

  /** The dictionary reveals nothing about the password hash: users that differ only in it
      serialise alike. */
  lemma ToDictHidesPassword(u: User, otherHash: string)
    ensures ToDict(u.(passwordHash := otherHash)) == ToDict(u)
  {
  }

  /** The dictionary loses nothing else: two rows with the same dictionary agree on every
      column except the password hash, `updated_at` and the preferences. */
  lemma ToDictDeterminesProfile(u: User, w: User)
    requires ToDict(u) == ToDict(w)
    ensures u == w.(passwordHash := u.passwordHash, updatedAt := u.updatedAt, preferences := u.preferences)
  {
    assert ToDict(u)["first_name"] == ToDict(w)["first_name"];
    assert ToDict(u)["last_name"] == ToDict(w)["last_name"];
    assert ToDict(u)["mem0_user_id"] == ToDict(w)["mem0_user_id"];
    assert ToDict(u)["created_at"] == ToDict(w)["created_at"];
    assert ToDict(u)["last_login"] == ToDict(w)["last_login"];
  }

  /** `get_mem0_user_id`: an empty or missing key becomes "user_" + id; an existing one is
      returned as it is. Gives the possibly updated row and the key. */
  function GetMem0UserId(u: User): (r: (User, string))
    ensures r.0.mem0UserId == Some(r.1) && r.1 != ""
    ensures u.mem0UserId.Some? && u.mem0UserId.value != "" ==> r.0 == u && r.1 == u.mem0UserId.value
    ensures u.mem0UserId.None? || u.mem0UserId.value == "" ==>
      r.1 == "user_" + u.id && r.0 == u.(mem0UserId := Some(r.1))
  {
    if u.mem0UserId.None? || u.mem0UserId.value == "" then
      var key := "user_" + u.id;
      (u.(mem0UserId := Some(key)), key)
    else (u, u.mem0UserId.value)
  }

  /** Asking again gives the same key and changes nothing more. */
  lemma Mem0UserIdStable(u: User)
    ensures GetMem0UserId(GetMem0UserId(u).0) == GetMem0UserId(u)
  {
  }
}
