/// The login form (`Login`): the typed username and password are checked
/// against the stored users; a match hands the username to the page, a
/// mismatch shows an error.
module Login {
  import opened Records

  const LoginError: string := "Hibás felhasználónév vagy jelszó."

  /** `users.find(u => u.username === username && u.password === password)` */
  function FindCredential(users: seq<User>, username: string, password: string): (r: Option<User>)
    ensures r.Some? <==> exists i :: 0 <= i < |users| && users[i].username == username && users[i].password == password
    ensures r.Some? ==> r.value in users && r.value.username == username && r.value.password == password
  {
    if users == [] then None
    else if users[0].username == username && users[0].password == password then Some(users[0])
    else
      var r := FindCredential(users[1..], username, password);
      assert forall i :: 1 <= i < |users| ==> users[i] == users[1..][i - 1];
      r
  }

  /** The seeded administrator can log in with its password and with no other. */
  lemma SeededAdministrator(password: string)
    ensures FindCredential([User(Admin, "1134", None, None)], Admin, password).Some? <==> password == "1134"
  {
  }

  class Login {
    var username: string
    var password: string
    var error: string

    constructor ()
      ensures username == "" && password == "" && error == ""
    {
      username := "";
      password := "";
      error := "";
    }

    /** The input fields' `onChange`. */
    method SetCredentials(username: string, password: string)
      modifies this`username, this`password
      ensures this.username == username && this.password == password
    {
      this.username := username;
      this.password := password;
    }

    /**
     * `handleSubmit`. `onLogin` is the username passed to the page's
     * `onLogin` callback, `None` when it is not called. The store is only read.
     */
    method HandleSubmit(store: LocalStore) returns (onLogin: Option<string>)
      modifies this`error
      ensures onLogin.Some? <==> FindCredential(store.UserList(), username, password).Some?
      ensures onLogin.Some? ==> onLogin.value == username && error == old(error)
      ensures onLogin.None? ==> error == LoginError
    {
      var user := FindCredential(store.UserList(), username, password);
      if user.Some? {
        onLogin := Some(username);
      } else {
        error := LoginError;
        onLogin := None;
      }
    }
  }
}
