/** services/user.py: looking users up and creating one from an email address. */
module UserService {
  import opened Wrappers
  import opened Ids
  import opened Models
  import opened Text
  import Ordering
  import Store

  /**
   * `email.split('@')[0]`: the text before the first '@', or the whole
   * address when it has none.
   */
  function DisplayName(email: string): (r: string)
    ensures '@' !in r
    ensures IsPrefix(r, email)
    ensures |r| < |email| ==> email[|r|] == '@'
  {
    BeforeFirst(email, '@')
  }

  /** The three facts above pin the display name down: no other string has them all. */
  lemma {:induction false} DisplayNameUnique(email: string, r: string)
    requires '@' !in r && IsPrefix(r, email)
    requires |r| < |email| ==> email[|r|] == '@'
    ensures r == DisplayName(email)
  {
    var d := DisplayName(email);
    if |r| < |d| {
      assert false;
    } else if |d| < |r| {
      assert false;
    }
    assert r == email[..|r|] && d == email[..|d|];
  }

  /** An address without '@' is its own display name; otherwise the address is the name, '@', and the rest. */
  lemma DisplayNameSplit(email: string)
    ensures '@' !in email ==> DisplayName(email) == email
    ensures '@' in email ==> exists rest :: email == DisplayName(email) + ['@'] + rest
  {
    var d := DisplayName(email);
    if '@' in email {
      assert |d| < |email|;
      assert email == d + ['@'] + email[|d| + 1..];
    } else {
      assert email == email[..|d|];
    }
  }

  function HasEmail(email: string): User -> bool
  {
    (u: User) => u.email == email
  }

  function HasId(id: Uuid): User -> bool
  {
    (u: User) => u.id == id
  }

  /** `get_user_by_email`: the first user whose address is exactly `email`, or None when there is none. */
  function UserByEmail(users: seq<User>, email: string): (r: Option<User>)
    ensures r.Some? ==> r.value in users && r.value.email == email
    ensures r.None? <==> forall u <- users :: u.email != email
  {
    Ordering.First(users, HasEmail(email))
  }

  /** `get_user_by_id`: the first user with that id, or None when there is none. */
  function UserById(users: seq<User>, id: Uuid): (r: Option<User>)
    ensures r.Some? ==> r.value in users && r.value.id == id
    ensures r.None? <==> forall u <- users :: u.id != id
  {
    Ordering.First(users, HasId(id))
  }

  /**
   * `create_user`: adds a user with the address stored as given and the
   * derived display name, and flushes without committing. The id is the
   * fresh uuid4 the model's default draws.
   */
  method CreateUser(db: Store.Session, email: string, id: Uuid) returns (u: User)
    modifies db
    ensures u == User(id, email, DisplayName(email))
    ensures db.users == old(db.users) + [u]
    ensures db.conversations == old(db.conversations) && db.messages == old(db.messages)
    ensures db.embeddings == old(db.embeddings) && db.items == old(db.items)
    ensures db.committed == old(db.committed)
  {
    u := User(id, email, DisplayName(email));
    db.users := db.users + [u];
  }

  /** Once a user is created, looking the address up finds a user with it; the new user is found by its unused id. */
  lemma CreatedUserFound(users: seq<User>, email: string, id: Uuid)
    requires forall u <- users :: u.id != id
    ensures UserByEmail(users + [User(id, email, DisplayName(email))], email).Some?
    ensures UserById(users + [User(id, email, DisplayName(email))], id) == Some(User(id, email, DisplayName(email)))
  {
    var u := User(id, email, DisplayName(email));
    assert u in users + [u];
    Ordering.FirstIsHeadOfFilter(users + [u], HasId(id));
    Ordering.FilterAppend(users, [u], HasId(id));
    var f := Ordering.Filter(users, HasId(id));
    assert f == [] by {
      if f != [] {
        assert false;
      }
    }
  }
}
