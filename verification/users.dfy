/**
 * The `User` table: its record, the unique columns, and the queries the
 * account routes make (`filter_by(...).first()`, `session.get`), with the
 * row-level updates they commit.
 *
 * The table is a sequence of rows in rowid order, which is the order a query
 * without ORDER BY returns them in. A new row takes the id SQLite assigns to an
 * INTEGER PRIMARY KEY without AUTOINCREMENT: one more than the largest id in
 * the table, or 1 when it is empty.
 */
module Users {
  import opened Options
  import opened Passwords

  type Id = nat

  /** One row: id, username and email are unique; the password column holds a
      bcrypt credential; a new row starts unconfirmed. */
  datatype User = User(
    id: Id,
    username: string,
    email: string,
    password: Credential,
    createdAt: int,
    isConfirmed: bool)

  type Table = seq<User>

  /** A unique column and the value a query filters it by. */
  datatype Key = ById(id: Id) | ByUsername(username: string) | ByEmail(email: string)

  predicate Matches(u: User, key: Key)
  {
    match key
    case ById(id) => u.id == id
    case ByUsername(name) => u.username == name
    case ByEmail(email) => u.email == email
  }

  ghost predicate Has(users: Table, key: Key)
  {
    exists j :: 0 <= j < |users| && Matches(users[j], key)
  }

  /** The unique constraints of the table: no two rows share an id, a
      username or an e-mail address. */
  predicate Valid(users: Table)
  {
    forall i, j :: 0 <= i < j < |users| ==>
      && users[i].id != users[j].id
      && users[i].username != users[j].username
      && users[i].email != users[j].email
  }

  /** `filter_by(...).first()`: the position of the first row matching `key`,
      or `None` when no row does. */
  function Find(users: Table, key: Key): (r: Option<nat>)
    ensures r.Some? ==> r.value < |users| && Matches(users[r.value], key)
    ensures r.Some? ==> forall j :: 0 <= j < r.value ==> !Matches(users[j], key)
    ensures r.None? <==> !Has(users, key)
  {
    FindFrom(users, key, 0)
  }

  function FindFrom(users: Table, key: Key, from: nat): (r: Option<nat>)
    requires from <= |users|
    ensures r.Some? ==> from <= r.value < |users| && Matches(users[r.value], key)
    ensures r.Some? ==> forall j :: from <= j < r.value ==> !Matches(users[j], key)
    ensures r.None? ==> forall j :: from <= j < |users| ==> !Matches(users[j], key)
    decreases |users| - from
  {
    if from == |users| then None
    else if Matches(users[from], key) then Some(from)
    else FindFrom(users, key, from + 1)
  }

  /** In a valid table a unique column identifies its row: the row a query
      returns is the one holding the value. */
  lemma FindUnique(users: Table, key: Key, j: nat)
    requires Valid(users)
    requires j < |users| && Matches(users[j], key)
    ensures Find(users, key) == Some(j)
  {
  }

  /** The largest id in the table, 0 when it is empty. */
  function MaxId(users: Table): (m: nat)
    ensures forall j :: 0 <= j < |users| ==> users[j].id <= m
    ensures |users| > 0 ==> exists j :: 0 <= j < |users| && users[j].id == m
  {
    if |users| == 0 then 0
    else
      var rest := MaxId(users[1..]);
      if users[0].id > rest then users[0].id else rest
  }

  /** The id the database gives the next inserted row: not held by any row. */
  function NextId(users: Table): (id: Id)
    ensures !Has(users, ById(id))
    ensures id > 0
  {
    MaxId(users) + 1
  }

  /** Deletes the row at position `i`; the rows around it keep their order. */
  function RemoveAt(users: Table, i: nat): (r: Table)
    requires i < |users|
    ensures |r| == |users| - 1
    ensures forall j :: 0 <= j < i ==> r[j] == users[j]
    ensures forall j :: i <= j < |r| ==> r[j] == users[j + 1]
  {
    users[..i] + users[i + 1..]
  }

  /** `b` is `a` with at most its password column changed. */
  predicate OnlyPasswordDiffers(a: User, b: User)
  {
    b == a.(password := b.password)
  }

  /** `b` is `a` with at most its confirmation flag changed. */
  predicate OnlyConfirmationDiffers(a: User, b: User)
  {
    b == a.(isConfirmed := b.isConfirmed)
  }

  /** Every row keeps its place, except possibly the one at position `i`. */
  ghost predicate OthersUnchanged(before: Table, after: Table, i: nat)
  {
    && |after| == |before|
    && i < |before|
    && forall j :: 0 <= j < |before| && j != i ==> after[j] == before[j]
  }

  /** No row that was confirmed in `before` is unconfirmed in `after`. */
  ghost predicate ConfirmationKept(before: Table, after: Table)
  {
    forall i, j :: 0 <= i < |before| && 0 <= j < |after| && before[i].id == after[j].id && before[i].isConfirmed ==>
      after[j].isConfirmed
  }

  /** `a` and `b` agree on every unique column. */
  predicate SameKeys(a: User, b: User)
  {
    a.id == b.id && a.username == b.username && a.email == b.email
  }

  /** An update that leaves the unique columns alone keeps the table valid. */
  lemma UpdateKeepsValid(users: Table, i: nat, u: User)
    requires Valid(users) && i < |users| && SameKeys(users[i], u)
    ensures Valid(users[i := u])
  {
    var users' := users[i := u];
    forall a, b | 0 <= a < b < |users'|
      ensures SameKeys(users'[a], users[a]) && SameKeys(users'[b], users[b])
    {
    }
  }

  /** An update that leaves the unique columns alone keeps every query's
      answer. */
  lemma UpdateKeepsQueries(users: Table, i: nat, u: User, key: Key)
    requires i < |users| && SameKeys(users[i], u)
    ensures Find(users[i := u], key) == Find(users, key)
    ensures Has(users[i := u], key) <==> Has(users, key)
  {
    var users' := users[i := u];
    assert forall j :: 0 <= j < |users| ==> (Matches(users'[j], key) <==> Matches(users[j], key));
    var r, r' := Find(users, key), Find(users', key);
    if r.Some? && r'.Some? {
      assert !(r.value < r'.value) && !(r'.value < r.value);
    }
  }

  /** Inserting a row whose unique columns are all unused keeps the table
      valid. */
  lemma AppendKeepsValid(users: Table, u: User)
    requires Valid(users)
    requires !Has(users, ById(u.id)) && !Has(users, ByUsername(u.username)) && !Has(users, ByEmail(u.email))
    ensures Valid(users + [u])
  {
    var users' := users + [u];
    forall i, j | 0 <= i < j < |users'|
      ensures users'[i].id != users'[j].id && users'[i].username != users'[j].username && users'[i].email != users'[j].email
    {
      if j == |users| {
        assert !Matches(users[i], ById(u.id)) && !Matches(users[i], ByUsername(u.username)) && !Matches(users[i], ByEmail(u.email));
      }
    }
  }

  /** Deleting a row keeps the table valid, removes exactly the rows holding
      that row's id, and keeps every other row. */
  lemma RemoveAtKeepsOthers(users: Table, i: nat)
    requires Valid(users) && i < |users|
    ensures Valid(RemoveAt(users, i))
    ensures !Has(RemoveAt(users, i), ById(users[i].id))
    ensures forall u :: u in RemoveAt(users, i) <==> u in users && u.id != users[i].id
  {
    RemoveAtKeepsValid(users, i);
    forall u
      ensures u in RemoveAt(users, i) <==> u in users && u.id != users[i].id
    {
      RemoveAtMembership(users, i, u);
    }
  }

  lemma RemoveAtKeepsValid(users: Table, i: nat)
    requires Valid(users) && i < |users|
    ensures Valid(RemoveAt(users, i))
  {
    var r := RemoveAt(users, i);
    forall a, b | 0 <= a < b < |r|
      ensures r[a].id != r[b].id && r[a].username != r[b].username && r[a].email != r[b].email
    {
      var a', b' := if a < i then a else a + 1, if b < i then b else b + 1;
      assert r[a] == users[a'] && r[b] == users[b'] && a' < b';
    }
  }

  lemma RemoveAtMembership(users: Table, i: nat, u: User)
    requires Valid(users) && i < |users|
    ensures u in RemoveAt(users, i) <==> u in users && u.id != users[i].id
  {
    var r := RemoveAt(users, i);
    if u in r {
      var k :| 0 <= k < |r| && r[k] == u;
      var k' := if k < i then k else k + 1;
      assert users[k'] == u && k' != i;
    }
    if u in users && u.id != users[i].id {
      var k :| 0 <= k < |users| && users[k] == u;
      var k' := if k < i then k else k - 1;
      assert r[k'] == u;
    }
  }
}
