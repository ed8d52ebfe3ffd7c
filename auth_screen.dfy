/**
 * The demo-account chooser: picking an account fills in the username, and
 * submitting hands a user record to the page or shows a validation message.
 */
module Auth {
  import opened Wrappers
  import opened Domain

  const ChooseAccountError: string := "Choose one of the demo accounts to continue."

  /** `users.find((user) => user.username === username)`. */
  function FindByUsername(users: seq<User>, username: string): (r: Option<User>)
    ensures r.None? <==> forall i :: 0 <= i < |users| ==> users[i].username != username
    ensures r.Some? ==> exists k :: 0 <= k < |users| && users[k] == r.value && r.value.username == username &&
                                    forall j :: 0 <= j < k ==> users[j].username != username
  {
    if users == [] then None
    else if users[0].username == username then
      Some(users[0])
    else
      var r := FindByUsername(users[1..], username);
      assert forall i :: 1 <= i < |users| ==> users[i] == users[1..][i - 1];
      if r.Some? then
        assert exists k :: 1 <= k < |users| && users[k] == r.value &&
                           forall j :: 0 <= j < k ==> users[j].username != username by {
          var k :| 0 <= k < |users[1..]| && users[1..][k] == r.value &&
                   forall j :: 0 <= j < k ==> users[1..][j].username != username;
          assert users[k + 1] == r.value;
        }
        r
      else r
  }

  /**
   * `find(...) ?? users[0]`: the first account with that username, else the
   * first account; with no accounts at all, `users[0]` is `undefined`.
   */
  function SelectedAccount(users: seq<User>, username: string): (r: Option<User>)
    ensures users == [] ==> r == None
    ensures FindByUsername(users, username).Some? ==> r == FindByUsername(users, username)
    ensures users != [] && (forall i :: 0 <= i < |users| ==> users[i].username != username) ==> r == Some(users[0])
    ensures r.Some? ==> r.value in users
  {
    match FindByUsername(users, username)
    case Some(u) => Some(u)
    case None => if users == [] then None else Some(users[0])
  }

  /** Usernames identify accounts. */
  predicate UniqueUsernames(users: seq<User>) {
    forall i, j :: 0 <= i < j < |users| ==> users[i].username != users[j].username
  }

  /** Clicking account `i` and then submitting selects exactly account `i`. */
  lemma ClickThenSubmitSelects(users: seq<User>, i: nat)
    requires UniqueUsernames(users)
    requires i < |users|
    ensures SelectedAccount(users, users[i].username) == Some(users[i])
  {
    var r := FindByUsername(users, users[i].username);
    var k :| 0 <= k < |users| && users[k] == r.value && r.value.username == users[i].username &&
             forall j :: 0 <= j < k ==> users[j].username != users[i].username;
    assert k == i;
  }

  /** The page callback the chooser invokes, if any. */
  datatype SubmitCall = NoCall | SelectUser(user: Option<User>)

  /** The chooser's state: the username being submitted and the message shown. */
  class AuthScreen {
    const users: seq<User>
    var username: string
    var error: Option<string>

    constructor (users: seq<User>)
      ensures this.users == users && username == "" && error == None
    {
      this.users := users;
      username := "";
      error := None;
    }

    /**
     * `handleSubmit`: an empty username sets the message and calls nothing;
     * any other username clears the message and passes `SelectedAccount` up,
     * matched or not.
     */
    method HandleSubmit() returns (call: SubmitCall)
      modifies this
      ensures username == old(username)
      ensures username == "" ==> call == NoCall && error == Some(ChooseAccountError)
      ensures username != "" ==> call == SelectUser(SelectedAccount(users, username)) && error == None
    {
      var selectedUser := SelectedAccount(users, username);
      if username == "" {
        error := Some(ChooseAccountError);
        call := NoCall;
        return;
      }
      error := None;
      call := SelectUser(selectedUser);
    }

    /** Clicking the button of account `i`. */
    method ClickAccount(i: nat)
      requires i < |users|
      modifies this
      ensures username == users[i].username && error == None
    {
      username := users[i].username;
      error := None;
    }
  }
}
