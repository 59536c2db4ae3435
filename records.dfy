/// The records the application keeps in the browser's local key-value store,
/// and the store itself.
///
/// Each store key holds a JSON array; here every key is a typed sequence.
/// A missing `services`, `reports` or `weeklyAnalyses` key reads as `[]`
/// everywhere in the application, so those three are plain sequences; the
/// `users` key is an `Option` because the application seeds it only when it
/// is absent.
module Records {

  datatype Option<+T> = None | Some(value: T) {
    /** The value, or `default` when absent (JavaScript's `x || default` on an object). */
    function GetOr(default: T): T {
      match this
      case Some(v) => v
      case None => default
    }
  }

  /** The only administrator: privilege is decided by this username alone. */
  const Admin: string := "asd"

  /** A stored account. `fullName` and `rank` are absent on the seeded administrator. */
  datatype User = User(username: string, password: string, fullName: Option<string>, rank: Option<string>)

  /**
   * A logged duty shift. Timestamps are milliseconds; `globalIndex` is the
   * 1-based row number the overview attaches while displaying the list.
   */
  datatype Service = Service(
    id: string,
    serviceName: string,
    serviceRank: string,
    serviceStart: int,
    serviceEnd: int,
    durationInMinutes: int,
    createdAt: string,
    globalIndex: Option<int>)

  /** A case report with its billed amount (`ticket`, whole dollars). */
  datatype Report = Report(
    id: string,
    yourName: string,
    rank: string,
    colleagueName: string,
    colleagueRank: string,
    caseDescription: string,
    ticket: int,
    imageLink: string,
    date: string)

  /** An archived week: the services and reports as they were at the rollover. */
  datatype WeeklyAnalysis = WeeklyAnalysis(date: string, services: seq<Service>, reports: seq<Report>)

  /** `users.find(u => u.username === name)`: the first user with that username. */
  function FindUser(users: seq<User>, name: string): (r: Option<User>)
    ensures r.Some? <==> exists i :: 0 <= i < |users| && users[i].username == name
    ensures r.Some? ==> r.value in users && r.value.username == name
  {
    if users == [] then None
    else if users[0].username == name then Some(users[0])
    else
      var r := FindUser(users[1..], name);
      assert forall i :: 1 <= i < |users| ==> users[i] == users[1..][i - 1];
      r
  }

  /** The user found is the first one with that username. */
  lemma {:induction false} FindUserFirst(users: seq<User>, name: string)
    requires FindUser(users, name).Some?
    ensures exists i :: 0 <= i < |users| && users[i] == FindUser(users, name).value &&
                        forall j :: 0 <= j < i ==> users[j].username != name
    decreases |users|
  {
    if users[0].username != name {
      var rest := users[1..];
      FindUserFirst(rest, name);
      var i :| 0 <= i < |rest| && rest[i] == FindUser(rest, name).value &&
               forall j :: 0 <= j < i ==> rest[j].username != name;
      assert users[i + 1] == rest[i];
      forall j | 0 <= j < i + 1 ensures users[j].username != name {
        if j > 0 {
          assert users[j] == rest[j - 1];
        }
      }
    } else {
      assert users[0] == FindUser(users, name).value;
    }
  }


  /** The browser's local storage, restricted to the keys the core uses. */
  class LocalStore {
    var users: Option<seq<User>>
    var services: seq<Service>
    var reports: seq<Report>
    var weeklyAnalyses: seq<WeeklyAnalysis>

    /** A browser profile that has never run the application. */
    constructor ()
      ensures users == None && services == [] && reports == [] && weeklyAnalyses == []
    {
      users := None;
      services := [];
      reports := [];
      weeklyAnalyses := [];
    }

    /** `JSON.parse(localStorage.getItem("users") || "[]")` */
    function UserList(): seq<User>
      reads this
    {
      users.GetOr([])
    }
  }
}
