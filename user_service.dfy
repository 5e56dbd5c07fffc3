/** The user store behind the authentication service: a users table with unique id, email,
    username and memory key, and the service's create, lookup, authenticate, update and
    soft-delete operations. Functions over the table's rows give each operation's meaning;
    the class holding the table implements them step by step. */
module UserService {
  import opened Wrappers
  import opened Models

  // ---------------------------------------------------------------------------------------
  // Table constraints and lookups

  /** The unique constraints of the table; null memory keys may repeat. */
  predicate Unique(rows: seq<User>): (b: bool)
    ensures b ==> forall i, j :: 0 <= i < |rows| && 0 <= j < |rows| && i != j ==>
      rows[i].id != rows[j].id && rows[i].email != rows[j].email && rows[i].username != rows[j].username
    ensures |rows| <= 1 ==> b
  {
    forall i, j :: 0 <= i < j < |rows| ==>
      && rows[i].id != rows[j].id
      && rows[i].email != rows[j].email
      && rows[i].username != rows[j].username
      && (rows[i].mem0UserId.Some? ==> rows[i].mem0UserId != rows[j].mem0UserId)
  }

  datatype Column = IdColumn | EmailColumn | UsernameColumn | Mem0Column

  function ValueOf(u: User, c: Column): Option<string> {
    match c
    case IdColumn => Some(u.id)
    case EmailColumn => Some(u.email)
    case UsernameColumn => Some(u.username)
    case Mem0Column => u.mem0UserId
  }

  /** The first row whose column holds `v`. */
  function FirstMatch(rows: seq<User>, c: Column, v: string): (k: Option<nat>)
    ensures k.Some? ==> k.value < |rows| && ValueOf(rows[k.value], c) == Some(v)
    ensures k.Some? ==> forall j :: 0 <= j < k.value ==> ValueOf(rows[j], c) != Some(v)
    ensures k.None? <==> forall j :: 0 <= j < |rows| ==> ValueOf(rows[j], c) != Some(v)
    decreases |rows|
  {
    if rows == [] then None
    else if ValueOf(rows[0], c) == Some(v) then Some(0)
    else match FirstMatch(rows[1..], c, v)
      case None => None
      case Some(k) => Some(k + 1)
  }

  /** `db.query(User).filter(column == v).first()`. */
  function Lookup(rows: seq<User>, c: Column, v: string): (r: Option<User>)
    ensures r.Some? ==> r.value in rows && ValueOf(r.value, c) == Some(v)
    ensures r.None? <==> forall u :: u in rows ==> ValueOf(u, c) != Some(v)
  {
    match FirstMatch(rows, c, v)
    case None => None
    case Some(k) => Some(rows[k])
  }

  /** In a table that keeps its constraints, a row holding `v` in a unique column is the
      row every lookup of `v` finds. */
  lemma UniqueMatch(rows: seq<User>, c: Column, v: string, k: nat)
    requires Unique(rows) && k < |rows| && ValueOf(rows[k], c) == Some(v)
    ensures FirstMatch(rows, c, v) == Some(k)
  {
  }

  // ---------------------------------------------------------------------------------------
  // Creation

  datatype CreateRequest = CreateRequest(
    email: string, username: string, password: string,
    firstName: Option<string>, lastName: Option<string>)

  /** `create_user` as written, with the password already hashed and the new row's generated
      id given. The first commit inserts the row, unless the id, email or username is taken;
      the second stores the memory key "user_" + id (refreshing `updated_at`), unless another
      row holds that key, in which case only the second commit is rolled back: the row stays,
      without a key, and the caller is told that nothing was created. */
  function CreateRows(rows: seq<User>, req: CreateRequest, passwordHash: string, newId: string, now: Instant)
    : (r: (seq<User>, Option<User>))
    ensures r.1.Some? ==> r.0 == rows + [r.1.value]
    ensures r.1.Some? ==>
      var u := r.1.value;
      && u.id == newId && u.email == req.email && u.username == req.username
      && u.passwordHash == passwordHash && u.firstName == req.firstName && u.lastName == req.lastName
      && u.mem0UserId == Some("user_" + newId) && u.isActive && !u.isVerified
      && u.lastLogin.None? && u.createdAt == Some(now) && u.updatedAt == Some(now)
    ensures r.1.None? && r.0 != rows ==>
      r.0 == rows + [InsertedUser(newId, req.email, req.username, passwordHash, req.firstName, req.lastName, now)]
      && FirstMatch(rows, Mem0Column, "user_" + newId).Some?
    ensures (r.0 == rows && r.1.None?) <==>
      (FirstMatch(rows, IdColumn, newId).Some? || FirstMatch(rows, EmailColumn, req.email).Some?
       || FirstMatch(rows, UsernameColumn, req.username).Some?)
  {
    if FirstMatch(rows, IdColumn, newId).Some? || FirstMatch(rows, EmailColumn, req.email).Some?
       || FirstMatch(rows, UsernameColumn, req.username).Some? then
      (rows, None)
    else
      var inserted := InsertedUser(newId, req.email, req.username, passwordHash, req.firstName, req.lastName, now);
      var (keyed, key) := GetMem0UserId(inserted);
      if FirstMatch(rows, Mem0Column, key).Some? then
        assert rows + [inserted] != rows by { assert |rows + [inserted]| != |rows|; }
        (rows + [inserted], None)
      else
        var created := keyed.(updatedAt := Some(now));
        (rows + [created], Some(created))
  }

  /** Creating with an email or username that is already in the table creates nothing and
      leaves the table as it was. */
  lemma CreateDuplicateRejected(rows: seq<User>, req: CreateRequest, passwordHash: string, newId: string, now: Instant)
    requires exists k :: 0 <= k < |rows| && (rows[k].email == req.email || rows[k].username == req.username)
    ensures CreateRows(rows, req, passwordHash, newId, now) == (rows, None)
  {
    var k :| 0 <= k < |rows| && (rows[k].email == req.email || rows[k].username == req.username);
    if rows[k].email == req.email {
      assert ValueOf(rows[k], EmailColumn) == Some(req.email);
    } else {
      assert ValueOf(rows[k], UsernameColumn) == Some(req.username);
    }
  }

  /** Either exactly one row is added and returned, or the table is unchanged, as long as no
      row already holds the key "user_" + id (which update_user can give a row). */
  lemma CreateAllOrNothing(rows: seq<User>, req: CreateRequest, passwordHash: string, newId: string, now: Instant)
    requires forall j :: 0 <= j < |rows| ==> rows[j].mem0UserId != Some("user_" + newId)
    ensures var r := CreateRows(rows, req, passwordHash, newId, now);
      (r.1.None? && r.0 == rows) || (r.1.Some? && r.0 == rows + [r.1.value])
  {
  }

  /** The one case where creation is not all-or-nothing: another row already holds the key
      "user_" + id, so the caller gets no user while a row without a key was added. */
  lemma CreateNotAtomic()
    ensures var other := User("o", "o@x", "o", "h", None, None, None, None, None, true, false, Some("user_n"), None);
      var r := CreateRows([other], CreateRequest("n@x", "n", "pw", None, None), "h", "n", 0);
      r.1.None? && |r.0| == 2
  {
    var other := User("o", "o@x", "o", "h", None, None, None, None, None, true, false, Some("user_n"), None);
    var req := CreateRequest("n@x", "n", "pw", None, None);
    assert ValueOf(other, IdColumn) != Some("n");
    assert ValueOf(other, EmailColumn) != Some(req.email);
    assert ValueOf(other, UsernameColumn) != Some(req.username);
    assert "user_" + "n" == "user_n";
    assert ValueOf([other][0], Mem0Column) == Some("user_" + "n");
  }

  lemma {:induction false} SnocUnique(rows: seq<User>, u: User)
    requires Unique(rows)
    requires forall j :: 0 <= j < |rows| ==>
      rows[j].id != u.id && rows[j].email != u.email && rows[j].username != u.username
      && (rows[j].mem0UserId.Some? ==> rows[j].mem0UserId != u.mem0UserId)
      && (u.mem0UserId.Some? ==> rows[j].mem0UserId != u.mem0UserId)
    ensures Unique(rows + [u])
  {
    var t := rows + [u];
    forall i, j | 0 <= i < j < |t|
      ensures t[i].id != t[j].id && t[i].email != t[j].email && t[i].username != t[j].username
      ensures t[i].mem0UserId.Some? ==> t[i].mem0UserId != t[j].mem0UserId
    {
      if j < |rows| {
        assert t[i] == rows[i] && t[j] == rows[j];
      } else {
        assert t[i] == rows[i] && t[j] == u;
      }
    }
  }

  /** Creation keeps the table's constraints. */
  lemma CreateKeepsUnique(rows: seq<User>, req: CreateRequest, passwordHash: string, newId: string, now: Instant)
    requires Unique(rows)
    ensures Unique(CreateRows(rows, req, passwordHash, newId, now).0)
  {
    var r := CreateRows(rows, req, passwordHash, newId, now);
    if r.0 != rows {
      var u := r.0[|rows|];
      assert r.0 == rows + [u];
      forall j | 0 <= j < |rows|
        ensures rows[j].id != u.id && rows[j].email != u.email && rows[j].username != u.username
        ensures rows[j].mem0UserId.Some? ==> rows[j].mem0UserId != u.mem0UserId
        ensures u.mem0UserId.Some? ==> rows[j].mem0UserId != u.mem0UserId
      {
        assert ValueOf(rows[j], IdColumn) != Some(newId);
        assert ValueOf(rows[j], EmailColumn) != Some(req.email);
        assert ValueOf(rows[j], UsernameColumn) != Some(req.username);
        if u.mem0UserId.Some? {
          assert ValueOf(rows[j], Mem0Column) != Some("user_" + newId);
        }
      }
      SnocUnique(rows, u);
    }
  }

  // ---------------------------------------------------------------------------------------
  // Authentication

  /** The row a login name designates: the first by email, else the first by username. */
  function LoginMatch(rows: seq<User>, login: string): (k: Option<nat>)
    ensures k.Some? ==> k.value < |rows|
    ensures FirstMatch(rows, EmailColumn, login).Some? ==> k == FirstMatch(rows, EmailColumn, login)
    ensures FirstMatch(rows, EmailColumn, login).None? ==> k == FirstMatch(rows, UsernameColumn, login)
  {
    var byEmail := FirstMatch(rows, EmailColumn, login);
    if byEmail.Some? then byEmail else FirstMatch(rows, UsernameColumn, login)
  }

  /** `authenticate_user`: on success the row's `last_login` is set (and the commit's
      `onupdate` refreshes `updated_at`); otherwise nothing changes. */
  function AuthenticateRows(rows: seq<User>, login: string, password: string,
                            verify: (string, string) -> bool, now: Instant): (r: (seq<User>, Option<User>))
    ensures r.1.None? ==> r.0 == rows
    ensures r.1.None? <==>
      LoginMatch(rows, login).None? || !verify(password, rows[LoginMatch(rows, login).value].passwordHash)
    ensures r.1.Some? ==>
      var k := LoginMatch(rows, login).value;
      && r.1.value == rows[k].(lastLogin := Some(now), updatedAt := Some(now))
      && r.0 == rows[k := r.1.value]
  {
    match LoginMatch(rows, login)
    case None => (rows, None)
    case Some(k) =>
      if !verify(password, rows[k].passwordHash) then (rows, None)
      else
        var loggedIn := rows[k].(lastLogin := Some(now), updatedAt := Some(now));
        (rows[k := loggedIn], Some(loggedIn))
  }

  /** A just-created user can log in with its email and its password. */
  lemma CreateThenAuthenticate(rows: seq<User>, req: CreateRequest, hash: string -> string,
                               verify: (string, string) -> bool, newId: string, now: Instant, later: Instant)
    requires Unique(rows)
    requires verify(req.password, hash(req.password))
    requires CreateRows(rows, req, hash(req.password), newId, now).1.Some?
    ensures var table := CreateRows(rows, req, hash(req.password), newId, now).0;
      AuthenticateRows(table, req.email, req.password, verify, later).1.Some?
  {
    var table := CreateRows(rows, req, hash(req.password), newId, now).0;
    CreateKeepsUnique(rows, req, hash(req.password), newId, now);
    UniqueMatch(table, EmailColumn, req.email, |rows|);
  }

  /** The email match wins even when another user's username is the login name and that
      user's password was given: the username is not tried. */
  lemma EmailShadowsUsername(rows: seq<User>, login: string, password: string,
                             verify: (string, string) -> bool, now: Instant, e: nat, n: nat)
    requires Unique(rows) && e < |rows| && n < |rows|
    requires rows[e].email == login && rows[n].username == login
    requires !verify(password, rows[e].passwordHash)
    ensures AuthenticateRows(rows, login, password, verify, now).1.None?
  {
    UniqueMatch(rows, EmailColumn, login, e);
  }

  /** Lookups do not look at the active flag. */
  lemma {:induction false} FirstMatchIgnoresActive(rows: seq<User>, k: nat, b: bool, c: Column, v: string)
    requires k < |rows|
    ensures FirstMatch(rows[k := rows[k].(isActive := b)], c, v) == FirstMatch(rows, c, v)
    decreases |rows|
  {
    var changed := rows[k := rows[k].(isActive := b)];
    assert ValueOf(changed[0], c) == ValueOf(rows[0], c);
    if ValueOf(rows[0], c) == Some(v) {
      assert FirstMatch(changed, c, v) == Some(0);
    } else if k == 0 {
      assert changed[1..] == rows[1..];
    } else {
      assert changed[1..] == rows[1..][k - 1 := rows[1..][k - 1].(isActive := b)];
      FirstMatchIgnoresActive(rows[1..], k - 1, b, c, v);
    }
  }

  /** Whether a login succeeds does not depend on any row's active flag: deactivated users
      still authenticate. */
  lemma AuthenticateIgnoresActive(rows: seq<User>, k: nat, b: bool, login: string, password: string,
                                  verify: (string, string) -> bool, now: Instant)
    requires k < |rows|
    ensures AuthenticateRows(rows[k := rows[k].(isActive := b)], login, password, verify, now).1.Some?
        == AuthenticateRows(rows, login, password, verify, now).1.Some?
  {
    FirstMatchIgnoresActive(rows, k, b, EmailColumn, login);
    FirstMatchIgnoresActive(rows, k, b, UsernameColumn, login);
  }

  // ---------------------------------------------------------------------------------------
  // Update and soft delete

  /** One keyword argument of `update_user`, typed by the attribute it names. `SetId` is the
      `id` attribute, which is skipped; `SetOther` names an attribute that is not a column
      (or no attribute), which leaves the row as it is. */
  datatype Assignment =
    | SetId(id: string)
    | SetEmail(email: string)
    | SetUsername(username: string)
    | SetPasswordHash(passwordHash: string)
    | SetFirstName(firstName: Option<string>)
    | SetLastName(lastName: Option<string>)
    | SetCreatedAt(createdAt: Instant)
    | SetUpdatedAt(updatedAt: Instant)
    | SetLastLogin(lastLogin: Option<Instant>)
    | SetIsActive(isActive: bool)
    | SetIsVerified(isVerified: bool)
    | SetMem0UserId(mem0UserId: Option<string>)
    | SetPreferences(preferences: Option<string>)
    | SetOther(name: string)

  /** The columns an assignment can write; `id` is not among them. */
  datatype Field =
    | EmailField | UsernameField | PasswordHashField | FirstNameField | LastNameField
    | CreatedAtField | UpdatedAtField | LastLoginField | IsActiveField | IsVerifiedField
    | Mem0UserIdField | PreferencesField

  /** A column's value, whatever its type. */
  datatype FieldValue = TextValue(s: string) | MaybeText(o: Option<string>) | TimeValue(t: Option<Instant>) | FlagValue(b: bool)

  /** The value of column `f` in row `u`. */
  function Get(u: User, f: Field): FieldValue {
    match f
    case EmailField => TextValue(u.email)
    case UsernameField => TextValue(u.username)
    case PasswordHashField => TextValue(u.passwordHash)
    case FirstNameField => MaybeText(u.firstName)
    case LastNameField => MaybeText(u.lastName)
    case CreatedAtField => TimeValue(u.createdAt)
    case UpdatedAtField => TimeValue(u.updatedAt)
    case LastLoginField => TimeValue(u.lastLogin)
    case IsActiveField => FlagValue(u.isActive)
    case IsVerifiedField => FlagValue(u.isVerified)
    case Mem0UserIdField => MaybeText(u.mem0UserId)
    case PreferencesField => MaybeText(u.preferences)
  }

  /** The column an assignment writes: none for `id`, which is skipped, and none for a name
      that is not a column. */
  function FieldOf(a: Assignment): Option<Field> {
    match a
    case SetId(_) => None
    case SetEmail(_) => Some(EmailField)
    case SetUsername(_) => Some(UsernameField)
    case SetPasswordHash(_) => Some(PasswordHashField)
    case SetFirstName(_) => Some(FirstNameField)
    case SetLastName(_) => Some(LastNameField)
    case SetCreatedAt(_) => Some(CreatedAtField)
    case SetUpdatedAt(_) => Some(UpdatedAtField)
    case SetLastLogin(_) => Some(LastLoginField)
    case SetIsActive(_) => Some(IsActiveField)
    case SetIsVerified(_) => Some(IsVerifiedField)
    case SetMem0UserId(_) => Some(Mem0UserIdField)
    case SetPreferences(_) => Some(PreferencesField)
    case SetOther(_) => None
  }

  /** The value an assignment writes into its column. */
  function Written(a: Assignment): FieldValue
    requires FieldOf(a).Some?
  {
    match a
    case SetEmail(v) => TextValue(v)
    case SetUsername(v) => TextValue(v)
    case SetPasswordHash(v) => TextValue(v)
    case SetFirstName(v) => MaybeText(v)
    case SetLastName(v) => MaybeText(v)
    case SetCreatedAt(v) => TimeValue(Some(v))
    case SetUpdatedAt(v) => TimeValue(Some(v))
    case SetLastLogin(v) => TimeValue(v)
    case SetIsActive(v) => FlagValue(v)
    case SetIsVerified(v) => FlagValue(v)
    case SetMem0UserId(v) => MaybeText(v)
    case SetPreferences(v) => MaybeText(v)
  }

  /** One `setattr`: the named column takes the written value, every other column and the id
      keep theirs. */
  function Apply(u: User, a: Assignment): (r: User)
    ensures r.id == u.id
    ensures forall f :: FieldOf(a) != Some(f) ==> Get(r, f) == Get(u, f)
    ensures FieldOf(a).Some? ==> Get(r, FieldOf(a).value) == Written(a)
  {
    match a
    case SetId(_) => u
    case SetEmail(v) => u.(email := v)
    case SetUsername(v) => u.(username := v)
    case SetPasswordHash(v) => u.(passwordHash := v)
    case SetFirstName(v) => u.(firstName := v)
    case SetLastName(v) => u.(lastName := v)
    case SetCreatedAt(v) => u.(createdAt := Some(v))
    case SetUpdatedAt(v) => u.(updatedAt := Some(v))
    case SetLastLogin(v) => u.(lastLogin := v)
    case SetIsActive(v) => u.(isActive := v)
    case SetIsVerified(v) => u.(isVerified := v)
    case SetMem0UserId(v) => u.(mem0UserId := v)
    case SetPreferences(v) => u.(preferences := v)
    case SetOther(_) => u
  }

  /** The `setattr` loop: the assignments applied in order. No sequence of keyword arguments
      changes the id. */
  function ApplyAll(u: User, assignments: seq<Assignment>): (r: User)
    ensures r.id == u.id
    decreases |assignments|
  {
    if assignments == [] then u else ApplyAll(Apply(u, assignments[0]), assignments[1..])
  }

  lemma {:induction false} ApplyAllConcat(u: User, xs: seq<Assignment>, ys: seq<Assignment>)
    ensures ApplyAll(u, xs + ys) == ApplyAll(ApplyAll(u, xs), ys)
    decreases |xs|
  {
    if xs == [] {
      assert xs + ys == ys;
    } else {
      assert (xs + ys)[0] == xs[0];
      assert (xs + ys)[1..] == xs[1..] + ys;
      ApplyAllConcat(Apply(u, xs[0]), xs[1..], ys);
    }
  }

  /** A column no assignment names keeps its value. */
  lemma {:induction false} ApplyAllFrame(u: User, assignments: seq<Assignment>, f: Field)
    requires forall j :: 0 <= j < |assignments| ==> FieldOf(assignments[j]) != Some(f)
    ensures Get(ApplyAll(u, assignments), f) == Get(u, f)
    decreases |assignments|
  {
    if assignments != [] {
      assert FieldOf(assignments[0]) != Some(f);
      ApplyAllFrame(Apply(u, assignments[0]), assignments[1..], f);
    }
  }

  /** The last assignment naming a column decides its value. */
  lemma ApplyAllLastWins(u: User, before: seq<Assignment>, a: Assignment, after: seq<Assignment>, f: Field)
    requires FieldOf(a) == Some(f)
    requires forall j :: 0 <= j < |after| ==> FieldOf(after[j]) != Some(f)
    ensures Get(ApplyAll(u, before + [a] + after), f) == Written(a)
  {
    ApplyAllConcat(u, before + [a], after);
    ApplyAllConcat(u, before, [a]);
    assert ApplyAll(ApplyAll(u, before), [a]) == Apply(ApplyAll(u, before), a) by {
      assert [a][1..] == [];
    }
    ApplyAllFrame(ApplyAll(u, before + [a]), after, f);
  }

  /** Whether an assignment writes a column with a unique constraint. */
  predicate WritesUniqueColumn(a: Assignment) {
    a.SetEmail? || a.SetUsername? || a.SetMem0UserId?
  }

  datatype UpdateOutcome = Updated(user: User) | NotPersistent | IntegrityError

  /** `update_user` on the row with the given id: the assignments, then `updated_at`, then the
      commit, which raises when a unique constraint would break. A user that is not in the
      table cannot be refreshed, which raises too. */
  function UpdateRows(rows: seq<User>, id: string, assignments: seq<Assignment>, now: Instant)
    : (r: (seq<User>, UpdateOutcome))
    ensures !r.1.Updated? ==> r.0 == rows
    ensures r.1 == NotPersistent <==> FirstMatch(rows, IdColumn, id).None?
    ensures r.1.Updated? ==>
      var k := FirstMatch(rows, IdColumn, id).value;
      && r.1.user == ApplyAll(rows[k], assignments).(updatedAt := Some(now))
      && r.0 == rows[k := r.1.user]
      && Unique(r.0)
    ensures FirstMatch(rows, IdColumn, id).Some? ==>
      var k := FirstMatch(rows, IdColumn, id).value;
      (r.1.Updated? <==> Unique(rows[k := ApplyAll(rows[k], assignments).(updatedAt := Some(now))]))
  {
    match FirstMatch(rows, IdColumn, id)
    case None => (rows, NotPersistent)
    case Some(k) =>
      var updated := ApplyAll(rows[k], assignments).(updatedAt := Some(now));
      var table := rows[k := updated];
      if Unique(table) then (table, Updated(updated)) else (rows, IntegrityError)
  }

  /** A successful update keeps the row's id, so the row is still found by it. */
  lemma UpdateKeepsId(rows: seq<User>, id: string, assignments: seq<Assignment>, now: Instant)
    requires UpdateRows(rows, id, assignments, now).1.Updated?
    ensures UpdateRows(rows, id, assignments, now).1.user.id == id
    ensures Lookup(UpdateRows(rows, id, assignments, now).0, IdColumn, id) == Some(UpdateRows(rows, id, assignments, now).1.user)
  {
    var r := UpdateRows(rows, id, assignments, now);
    var k := FirstMatch(rows, IdColumn, id).value;
    assert ValueOf(r.0[k], IdColumn) == Some(id);
    UniqueMatch(r.0, IdColumn, id, k);
  }

  /** Equal email, username and memory-key values mean equal fields. */
  lemma KeyColumns(u: User, w: User)
    requires Get(u, EmailField) == Get(w, EmailField)
    requires Get(u, UsernameField) == Get(w, UsernameField)
    requires Get(u, Mem0UserIdField) == Get(w, Mem0UserIdField)
    ensures u.email == w.email && u.username == w.username && u.mem0UserId == w.mem0UserId
  {
  }

  lemma OnlyUniqueWritesNameUniqueColumns(a: Assignment)
    requires !WritesUniqueColumn(a)
    ensures FieldOf(a) != Some(EmailField) && FieldOf(a) != Some(UsernameField) && FieldOf(a) != Some(Mem0UserIdField)
  {
  }

  /** Replacing a row by one with the same id, email, username and memory key keeps the
      constraints. */
  lemma ReplaceKeepsUnique(rows: seq<User>, k: nat, u: User)
    requires Unique(rows) && k < |rows|
    requires u.id == rows[k].id && u.email == rows[k].email && u.username == rows[k].username
    requires u.mem0UserId == rows[k].mem0UserId
    ensures Unique(rows[k := u])
  {
    var table := rows[k := u];
    forall i, j | 0 <= i < j < |table|
      ensures table[i].id != table[j].id && table[i].email != table[j].email && table[i].username != table[j].username
      ensures table[i].mem0UserId.Some? ==> table[i].mem0UserId != table[j].mem0UserId
    {
      assert rows[i].id != rows[j].id;
    }
  }

  /** In a table that keeps its constraints, an update that writes no unique column (names,
      flags, timestamps, preferences, the password hash) always commits, and the row gets the
      assignments and a fresh `updated_at`. */
  lemma UpdateOtherColumnsSucceeds(rows: seq<User>, k: nat, assignments: seq<Assignment>, now: Instant)
    requires Unique(rows) && k < |rows|
    requires forall j :: 0 <= j < |assignments| ==> !WritesUniqueColumn(assignments[j])
    ensures var r := UpdateRows(rows, rows[k].id, assignments, now);
      && r.1.Updated?
      && r.1.user == ApplyAll(rows[k], assignments).(updatedAt := Some(now))
      && r.0 == rows[k := r.1.user]
  {
    UniqueMatch(rows, IdColumn, rows[k].id, k);
    var u := ApplyAll(rows[k], assignments);
    forall j | 0 <= j < |assignments|
      ensures FieldOf(assignments[j]) != Some(EmailField)
      ensures FieldOf(assignments[j]) != Some(UsernameField)
      ensures FieldOf(assignments[j]) != Some(Mem0UserIdField)
    {
      OnlyUniqueWritesNameUniqueColumns(assignments[j]);
    }
    ApplyAllFrame(rows[k], assignments, EmailField);
    ApplyAllFrame(rows[k], assignments, UsernameField);
    ApplyAllFrame(rows[k], assignments, Mem0UserIdField);
    KeyColumns(u, rows[k]);
    ReplaceKeepsUnique(rows, k, u.(updatedAt := Some(now)));
  }

  /** `delete_user`: a soft delete. The row stays, inactive, with `updated_at` refreshed; a
      user that is not in the table leaves it unchanged. It always reports success. */
  function DeleteRows(rows: seq<User>, id: string, now: Instant): (r: (seq<User>, bool))
    ensures r.1
    ensures |r.0| == |rows|
    ensures FirstMatch(rows, IdColumn, id).None? ==> r.0 == rows
    ensures FirstMatch(rows, IdColumn, id).Some? ==>
      var k := FirstMatch(rows, IdColumn, id).value;
      r.0 == rows[k := rows[k].(isActive := false, updatedAt := Some(now))]
  {
    match FirstMatch(rows, IdColumn, id)
    case None => (rows, true)
    case Some(k) => (rows[k := rows[k].(isActive := false, updatedAt := Some(now))], true)
  }

  /** After a soft delete the user is still found by id, inactive, and still logs in: the
      active flag is not consulted by authentication. */
  lemma SoftDeletedStillFoundAndLogsIn(rows: seq<User>, k: nat, password: string,
                                       verify: (string, string) -> bool, now: Instant, later: Instant)
    requires Unique(rows) && k < |rows|
    requires verify(password, rows[k].passwordHash)
    ensures var table := DeleteRows(rows, rows[k].id, now).0;
      && Lookup(table, IdColumn, rows[k].id).Some?
      && !Lookup(table, IdColumn, rows[k].id).value.isActive
      && AuthenticateRows(table, rows[k].email, password, verify, later).1.Some?
  {
    UniqueMatch(rows, IdColumn, rows[k].id, k);
    var table := DeleteRows(rows, rows[k].id, now).0;
    assert Unique(table) by {
      forall i, j | 0 <= i < j < |table|
        ensures table[i].id != table[j].id && table[i].email != table[j].email && table[i].username != table[j].username
        ensures table[i].mem0UserId.Some? ==> table[i].mem0UserId != table[j].mem0UserId
      {
        assert rows[i].id != rows[j].id;
      }
    }
    assert ValueOf(table[k], IdColumn) == Some(rows[k].id);
    UniqueMatch(table, IdColumn, rows[k].id, k);
    assert ValueOf(table[k], EmailColumn) == Some(rows[k].email);
    UniqueMatch(table, EmailColumn, rows[k].email, k);
  }

  // ---------------------------------------------------------------------------------------
  // The table

  /** The users table as the session sees it, with the password scheme it is used with. */
  class UserTable {
    var rows: seq<User>
    const hash: string -> string
    const verify: (string, string) -> bool

    /** The table keeps its unique constraints, and every password verifies against its own hash. */
    ghost predicate Valid()
      reads this
    {
      Unique(rows) && forall p :: verify(p, hash(p))
    }

    constructor (hash: string -> string, verify: (string, string) -> bool)
      requires forall p :: verify(p, hash(p))
      ensures Valid() && rows == [] && this.hash == hash && this.verify == verify
    {
      this.hash := hash;
      this.verify := verify;
      rows := [];
    }

    /** Scans the table for the first row whose column holds `v`. */
    method FindIndex(c: Column, v: string) returns (k: Option<nat>)
      ensures k == FirstMatch(rows, c, v)
    {
      var i := 0;
      while i < |rows|
        invariant 0 <= i <= |rows|
        invariant forall j :: 0 <= j < i ==> ValueOf(rows[j], c) != Some(v)
      {
        if ValueOf(rows[i], c) == Some(v) {
          return Some(i);
        }
        i := i + 1;
      }
      return None;
    }

    method GetUserByEmail(email: string) returns (u: Option<User>)
      ensures u.Some? ==> u.value in rows && u.value.email == email
      ensures u.None? <==> forall j :: 0 <= j < |rows| ==> rows[j].email != email
      ensures u == Lookup(rows, EmailColumn, email)
    {
      var k := FindIndex(EmailColumn, email);
      u := if k.Some? then Some(rows[k.value]) else None;
    }

    method GetUserByUsername(username: string) returns (u: Option<User>)
      ensures u.Some? ==> u.value in rows && u.value.username == username
      ensures u.None? <==> forall j :: 0 <= j < |rows| ==> rows[j].username != username
      ensures u == Lookup(rows, UsernameColumn, username)
    {
      var k := FindIndex(UsernameColumn, username);
      u := if k.Some? then Some(rows[k.value]) else None;
    }

    method GetUserById(id: string) returns (u: Option<User>)
      ensures u.Some? ==> u.value in rows && u.value.id == id
      ensures u.None? <==> forall j :: 0 <= j < |rows| ==> rows[j].id != id
      ensures u == Lookup(rows, IdColumn, id)
    {
      var k := FindIndex(IdColumn, id);
      u := if k.Some? then Some(rows[k.value]) else None;
    }

    /** `create_user`, with the generated id and the current instant as inputs. */
    method CreateUser(req: CreateRequest, newId: string, now: Instant) returns (u: Option<User>)
      requires Valid()
      modifies this
      ensures Valid()
      ensures (rows, u) == CreateRows(old(rows), req, hash(req.password), newId, now)
    {
      var hashed := hash(req.password);
      var byId := FindIndex(IdColumn, newId);
      var byEmail := FindIndex(EmailColumn, req.email);
      var byUsername := FindIndex(UsernameColumn, req.username);
      if byId.Some? || byEmail.Some? || byUsername.Some? {
        return None;
      }
      var user := InsertedUser(newId, req.email, req.username, hashed, req.firstName, req.lastName, now);
      var before := rows;
      rows := rows + [user];
      var (keyed, key) := GetMem0UserId(user);
      var clash := FindIndex(Mem0Column, key);
      if clash.Some? {
        assert clash.value < |before| by {
          assert ValueOf(rows[|before|], Mem0Column) == None;
        }
        assert FirstMatch(before, Mem0Column, key).Some? by {
          assert ValueOf(before[clash.value], Mem0Column) == Some(key);
        }
        CreateKeepsUnique(before, req, hashed, newId, now);
        return None;
      }
      assert FirstMatch(before, Mem0Column, key).None? by {
        forall j | 0 <= j < |before| ensures ValueOf(before[j], Mem0Column) != Some(key) {
          assert before[j] == rows[j];
        }
      }
      var created := keyed.(updatedAt := Some(now));
      rows := before + [created];
      CreateKeepsUnique(before, req, hashed, newId, now);
      u := Some(created);
    }

    /** `authenticate_user`, with the login instant as input. */
    method AuthenticateUser(login: string, password: string, now: Instant) returns (u: Option<User>)
      requires Valid()
      modifies this
      ensures Valid()
      ensures (rows, u) == AuthenticateRows(old(rows), login, password, verify, now)
    {
      var k := FindIndex(EmailColumn, login);
      if k.None? {
        k := FindIndex(UsernameColumn, login);
      }
      if k.None? {
        return None;
      }
      var user := rows[k.value];
      if !verify(password, user.passwordHash) {
        return None;
      }
      user := user.(lastLogin := Some(now), updatedAt := Some(now));
      ghost var before := rows;
      rows := rows[k.value := user];
      u := Some(user);
      assert Unique(rows) by {
        forall i, j | 0 <= i < j < |rows|
          ensures rows[i].id != rows[j].id && rows[i].email != rows[j].email && rows[i].username != rows[j].username
          ensures rows[i].mem0UserId.Some? ==> rows[i].mem0UserId != rows[j].mem0UserId
        {
          assert before[i].id != before[j].id;
        }
      }
    }

    /** `update_user` on the row with the given id, with the current instant as input. */
    method UpdateUser(id: string, assignments: seq<Assignment>, now: Instant) returns (outcome: UpdateOutcome)
      requires Valid()
      modifies this
      ensures Valid()
      ensures (rows, outcome) == UpdateRows(old(rows), id, assignments, now)
    {
      var k := FindIndex(IdColumn, id);
      if k.None? {
        return NotPersistent;
      }
      var user := rows[k.value];
      var i := 0;
      while i < |assignments|
        invariant 0 <= i <= |assignments|
        invariant ApplyAll(user, assignments[i..]) == ApplyAll(rows[k.value], assignments)
      {
        assert assignments[i..][1..] == assignments[i + 1..];
        user := Apply(user, assignments[i]);
        i := i + 1;
      }
      assert assignments[i..] == [];
      user := user.(updatedAt := Some(now));
      var table := rows[k.value := user];
      if !Unique(table) {
        return IntegrityError;
      }
      rows := table;
      outcome := Updated(user);
    }

    /** `delete_user` on the row with the given id, with the current instant as input. */
    method DeleteUser(id: string, now: Instant) returns (ok: bool)
      requires Valid()
      modifies this
      ensures Valid()
      ensures (rows, ok) == DeleteRows(old(rows), id, now)
    {
      var k := FindIndex(IdColumn, id);
      if k.Some? {
        ghost var before := rows;
        rows := rows[k.value := rows[k.value].(isActive := false, updatedAt := Some(now))];
        assert Unique(rows) by {
          forall i, j | 0 <= i < j < |rows|
            ensures rows[i].id != rows[j].id && rows[i].email != rows[j].email && rows[i].username != rows[j].username
            ensures rows[i].mem0UserId.Some? ==> rows[i].mem0UserId != rows[j].mem0UserId
          {
            assert before[i].id != before[j].id;
          }
        }
      }
      ok := true;
    }
  }
}
