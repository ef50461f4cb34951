/**
 * The session provider: who is signed in, a login that looks the
 * credentials up in the seed user table, and a logout.
 */
module AuthContext {
  import opened JsText

  datatype User = User(id: string, email: string, password: string, name: string)

  /** The seed user table. */
  const SeedUsers: seq<User> := [User("1", "abhangpaturkar0709@gmail.com", "Pass@123", "Demo User")]

  datatype LoginResult = LoggedIn | Rejected(message: string)

  /** `users.find(u => u.email === email && u.password === password)`. */
  function FindUser(users: seq<User>, email: string, password: string): (r: Option<User>)
    ensures r.None? <==> forall k :: 0 <= k < |users| ==> !(users[k].email == email && users[k].password == password)
    ensures r.Some? ==> r.value.email == email && r.value.password == password
    ensures r.Some? ==> (exists k :: 0 <= k < |users| && users[k] == r.value &&
                          forall j :: 0 <= j < k ==> !(users[j].email == email && users[j].password == password))
  {
    if users == [] then None
    else if users[0].email == email && users[0].password == password then Some(users[0])
    else
      var r := FindUser(users[1..], email, password);
      if r.Some? then
        ghost var k :| 0 <= k < |users| - 1 && users[1..][k] == r.value &&
          forall j :: 0 <= j < k ==> !(users[1..][j].email == email && users[1..][j].password == password);
        assert users[k + 1] == r.value;
        r
      else r
  }

  /** Against the seed table, only the demo user's exact credentials log in. */
  lemma SeedAcceptsOnlyDemoCredentials(email: string, password: string)
    ensures FindUser(SeedUsers, email, password).Some? <==>
      email == "abhangpaturkar0709@gmail.com" && password == "Pass@123"
  {
    if email == "abhangpaturkar0709@gmail.com" && password == "Pass@123" {
      assert SeedUsers[0].email == email && SeedUsers[0].password == password;
    }
  }

  class AuthProvider {
    const users: seq<User>
    var user: Option<User>

    /** A fresh provider: nobody is signed in. */
    constructor (users: seq<User>)
      ensures this.users == users && user == None
    {
      this.users := users;
      user := None;
    }

    /** `login`: signs in the first user with these credentials, or throws
        "Invalid credentials" and leaves the session as it was. */
    method Login(email: string, password: string) returns (result: LoginResult)
      modifies this
      ensures FindUser(users, email, password).Some? ==>
        result == LoggedIn && user == FindUser(users, email, password)
      ensures FindUser(users, email, password).None? ==>
        result == Rejected("Invalid credentials") && user == old(user)
    {
      var found := FindUser(users, email, password);
      if found.None? {
        return Rejected("Invalid credentials");
      }
      user := found;
      result := LoggedIn;
    }

    /** `logout`. */
    method Logout()
      modifies this
      ensures user == None
    {
      user := None;
    }

    /** `isAuthenticated: !!user`. */
    function IsAuthenticated(): (b: bool)
      reads this
      ensures b <==> user.Some?
    {
      user.Some?
    }
  }
}
