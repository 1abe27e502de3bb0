/**
 * The credential logic of the auth provider (src/context/AuthContext.tsx):
 * the search `login` performs, the duplicate-email test and the user record
 * `signup` builds. The session itself lives in RecordStore.Store.
 */
module Auth {
  import opened Wrappers
  import opened Records
  import opened Seqs
  import opened Ids

  /** A user whose email and password both equal the given ones (plain string equality). */
  predicate Matches(u: User, email: string, password: string)
  {
    u.email == email && u.password == password
  }

  /**
   * `users.find(u => u.email === email && u.password === password)`, as an
   * index: the first user in collection order with both credentials, or None.
   */
  function FindUser(users: seq<User>, email: string, password: string): (r: Option<nat>)
    ensures r.Some? ==> r.value < |users| && Matches(users[r.value], email, password)
    ensures r.Some? ==> forall j :: 0 <= j < r.value ==> !Matches(users[j], email, password)
    ensures r.None? <==> forall j :: 0 <= j < |users| ==> !Matches(users[j], email, password)
  {
    FindFirst(users, (u: User) => Matches(u, email, password))
  }

  /** `users.some(u => u.email === email)`: a search for a user with the email succeeds. */
  function EmailTaken(users: seq<User>, email: string): (taken: bool)
    ensures taken <==> exists i :: 0 <= i < |users| && users[i].email == email
  {
    FindFirst(users, (u: User) => u.email == email).Some?
  }

  /**
   * The id signup gives: the first letter of the role's name followed by the
   * decimal rendering of the new user count.
   */
  function UserId(role: Role, count: nat): (id: string)
    ensures 2 <= |id| && id[0] == role.Name()[0]
    ensures forall i :: 1 <= i < |id| ==> '0' <= id[i] <= '9'
    ensures DigitsValue(id[1..]) == count + 1
    ensures |id| > 2 ==> id[1] != '0'
  {
    var prefix := [role.Initial()];
    var id := NextId(prefix, count);
    assert id[0] == id[..|prefix|][0] == role.Initial();
    assert id[1..] == id[|prefix|..];
    id
  }

  /** The signup form a user record was built from: every field but the id. */
  function FormOf(u: User): SignupForm
  {
    SignupForm(u.email, u.password, u.name, u.role, u.assignedTo)
  }

  /** The user record signup appends: the form's fields plus the generated id. */
  function NewUser(form: SignupForm, count: nat): (u: User)
    ensures FormOf(u) == form
    ensures u.id == UserId(form.role, count)
  {
    User(UserId(form.role, count), form.email, form.password, form.name, form.role, form.assignedTo)
  }

  /** No two users share an email. */
  ghost predicate DistinctEmails(users: seq<User>)
  {
    forall i, j :: 0 <= i < j < |users| ==> users[i].email != users[j].email
  }

  /** Every user id is its role's initial followed by a number no larger than the user count. */
  ghost predicate UserIdsNumbered(users: seq<User>)
  {
    forall i :: 0 <= i < |users| ==> Numbered(users[i].id, [users[i].role.Initial()], |users|)
  }

  /** A signup that passes the duplicate test keeps emails pairwise distinct. */
  lemma SignupKeepsEmailsDistinct(users: seq<User>, form: SignupForm)
    requires DistinctEmails(users) && !EmailTaken(users, form.email)
    ensures DistinctEmails(users + [NewUser(form, |users|)])
  {
  }

  /**
   * After a signup that passes the duplicate test, logging in with the new
   * email and password finds exactly the new user, whatever earlier users'
   * passwords are.
   */
  lemma LoginAfterSignup(users: seq<User>, form: SignupForm)
    requires !EmailTaken(users, form.email)
    ensures FindUser(users + [NewUser(form, |users|)], form.email, form.password) == Some(|users|)
  {
    var users' := users + [NewUser(form, |users|)];
    var r := FindUser(users', form.email, form.password);
    assert Matches(users'[|users|], form.email, form.password);
    assert forall j :: 0 <= j < |users| ==> users'[j] == users[j];
  }

  /** When user ids follow the scheme, the id signup generates is not taken, and the scheme is kept. */
  lemma SignupIdFresh(users: seq<User>, form: SignupForm)
    requires UserIdsNumbered(users)
    ensures forall i :: 0 <= i < |users| ==> users[i].id != UserId(form.role, |users|)
    ensures UserIdsNumbered(users + [NewUser(form, |users|)])
  {
    var newId := UserId(form.role, |users|);
    forall i | 0 <= i < |users|
      ensures users[i].id != newId
    {
      var k :| 1 <= k <= |users| && users[i].id == [users[i].role.Initial()] + Decimal(k);
      if users[i].id == newId {
        SameId([users[i].role.Initial()], [form.role.Initial()], k, |users| + 1);
      }
    }
    var users' := users + [NewUser(form, |users|)];
    forall i | 0 <= i < |users'|
      ensures Numbered(users'[i].id, [users'[i].role.Initial()], |users'|)
    {
      if i < |users| {
        var k :| 1 <= k <= |users| && users[i].id == [users[i].role.Initial()] + Decimal(k);
        assert users'[i].id == [users'[i].role.Initial()] + Decimal(k);
      } else {
        assert users'[i].id == [users'[i].role.Initial()] + Decimal(|users| + 1);
      }
    }
  }
}
