/** The administration page for users (`UserManagement`): the colour of a
    role tag, validation of the user form, and the page state the dialog
    and the server's answers update. */
module UserManagement {
  import opened Wrappers
  import opened Text
  import opened Models
  import opened Lists

  /** The role a closed form shows. */
  const DEFAULT_ROLE := "User"

  /** `getRoleSeverity`: the tag colour of a role, `info` for any role it
      does not know. */
  function GetRoleSeverity(role: string): (s: Severity)
    ensures s == Danger <==> role == "Admin"
    ensures s == Warn <==> role == "Manager"
    ensures s == Success <==> role == "Guest"
    ensures s == Info <==> role !in {"Admin", "Manager", "Guest"}
  {
    match role
    case "Admin" => Danger
    case "Manager" => Warn
    case "User" => Info
    case "Guest" => Success
    case _ => Info
  }

  /** The body of the update call. */
  datatype UpdateUserRequest = UpdateUserRequest(firstName: string, lastName: string, role: string, isActive: bool)

  /** What `saveUser` does before the server answers. */
  datatype SaveUserOutcome =
    | NoUser                                             // no user in the form: nothing happens
    | NamesRequired                                      // a blank name: warning shown, nothing sent
    | UpdateUser(userId: string, request: UpdateUserRequest)

  /** `saveUser`: with a user in the form and both names non-blank once
      trimmed, the update carries the trimmed names with the role and the
      active flag as chosen. */
  function SaveUser(currentUser: Option<User>, firstName: string, lastName: string, role: string, isActive: bool): (o: SaveUserOutcome)
    ensures o == NoUser <==> currentUser.None?
    ensures o == NamesRequired <==> currentUser.Some? && (IsBlank(firstName) || IsBlank(lastName))
    ensures o.UpdateUser? ==>
      && o.userId == currentUser.value.id
      && o.request == UpdateUserRequest(Trim(firstName), Trim(lastName), role, isActive)
      && o.request.firstName != "" && o.request.lastName != ""
  {
    if currentUser.None? then NoUser
    else
      var first := Trim(firstName);
      var last := Trim(lastName);
      if first == "" || last == "" then NamesRequired
      else UpdateUser(currentUser.value.id, UpdateUserRequest(first, last, role, isActive))
  }

  /** Saving again from the fields the server confirmed sends the same
      request: editing a saved user without changes is a no-op. */
  lemma SaveUserRoundTrip(user: User, firstName: string, lastName: string, role: string, isActive: bool)
    requires SaveUser(Some(user), firstName, lastName, role, isActive).UpdateUser?
    ensures var r := SaveUser(Some(user), firstName, lastName, role, isActive).request;
      SaveUser(Some(user), r.firstName, r.lastName, r.role, r.isActive) == SaveUser(Some(user), firstName, lastName, role, isActive)
  {
    TrimIdempotent(firstName);
    TrimIdempotent(lastName);
  }

  /** `formatDate`: `Never` for a missing or empty date, otherwise the date
      in the fixed US English format (`localize`). */
  function FormatDate(date: Option<string>, localize: string -> string): (s: string)
    ensures date.None? || date.value == "" ==> s == "Never"
    ensures date.Some? && date.value != "" ==> s == localize(date.value)
  {
    if date.None? || date.value == "" then "Never" else localize(date.value)
  }

  function UserId(u: User): string { u.id }

  class UserManagementPage {
    var users: seq<User>
    var showUserDialog: bool
    var isEditingUser: bool
    var isSavingUser: bool
    var currentUser: Option<User>
    var userFirstName: string
    var userLastName: string
    var userRole: string
    var userIsActive: bool

    /** The form a closed dialog holds. */
    predicate FormReset()
      reads this
    {
      currentUser.None? && userFirstName == "" && userLastName == "" && userRole == DEFAULT_ROLE && userIsActive
    }

    /** A closed dialog holds the reset form. */
    predicate Valid()
      reads this
    {
      !showUserDialog ==> FormReset()
    }

    constructor ()
      ensures Valid() && users == [] && !showUserDialog && !isEditingUser && !isSavingUser && FormReset()
    {
      users := [];
      showUserDialog := false;
      isEditingUser := false;
      isSavingUser := false;
      currentUser := None;
      userFirstName := "";
      userLastName := "";
      userRole := DEFAULT_ROLE;
      userIsActive := true;
    }

    /** `openEditUserDialog`: the form filled from `user`. */
    method OpenEditUserDialog(user: User)
      modifies this
      ensures Valid() && showUserDialog && isEditingUser && currentUser == Some(user)
      ensures userFirstName == user.firstName && userLastName == user.lastName
      ensures userRole == user.role && userIsActive == user.isActive
      ensures users == old(users) && isSavingUser == old(isSavingUser)
    {
      isEditingUser := true;
      currentUser := Some(user);
      userFirstName := user.firstName;
      userLastName := user.lastName;
      userRole := user.role;
      userIsActive := user.isActive;
      showUserDialog := true;
    }

    /** `closeUserDialog`: hides the dialog and resets the form. */
    method CloseUserDialog()
      modifies this
      ensures Valid() && !showUserDialog && FormReset()
      ensures users == old(users) && isEditingUser == old(isEditingUser) && isSavingUser == old(isSavingUser)
    {
      showUserDialog := false;
      currentUser := None;
      userFirstName := "";
      userLastName := "";
      userRole := DEFAULT_ROLE;
      userIsActive := true;
    }

    /** `saveUser`: the outcome for the current form; the saving flag is set
        only when a request is sent. */
    method SaveUserClicked() returns (o: SaveUserOutcome)
      requires Valid()
      modifies this
      ensures Valid()
      ensures o == SaveUser(currentUser, userFirstName, userLastName, userRole, userIsActive)
      ensures isSavingUser == (old(isSavingUser) || o.UpdateUser?)
      ensures users == old(users) && showUserDialog == old(showUserDialog) && currentUser == old(currentUser)
      ensures userFirstName == old(userFirstName) && userLastName == old(userLastName)
      ensures userRole == old(userRole) && userIsActive == old(userIsActive) && isEditingUser == old(isEditingUser)
    {
      o := SaveUser(currentUser, userFirstName, userLastName, userRole, userIsActive);
      isSavingUser := isSavingUser || o.UpdateUser?;
    }

    /** The server updated a user: every user with its id is replaced. */
    method UserUpdated(updated: User)
      modifies this
      ensures Valid() && users == ReplaceById(old(users), updated, UserId) && !showUserDialog && !isSavingUser
      ensures isEditingUser == old(isEditingUser)
    {
      users := ReplaceById(users, updated, UserId);
      CloseUserDialog();
      isSavingUser := false;
    }

    /** The server refused the update: the dialog stays open with its form. */
    method SaveFailed()
      requires Valid()
      modifies this
      ensures Valid() && !isSavingUser && users == old(users) && showUserDialog == old(showUserDialog)
      ensures currentUser == old(currentUser) && userFirstName == old(userFirstName) && userLastName == old(userLastName)
      ensures userRole == old(userRole) && userIsActive == old(userIsActive) && isEditingUser == old(isEditingUser)
    {
      isSavingUser := false;
    }

    /** The server deleted `user`: every user with its id goes. */
    method UserDeleted(user: User)
      requires Valid()
      modifies this
      ensures Valid() && users == RemoveById(old(users), user.id, UserId)
      ensures showUserDialog == old(showUserDialog) && isSavingUser == old(isSavingUser)
      ensures currentUser == old(currentUser) && userFirstName == old(userFirstName) && userLastName == old(userLastName)
      ensures userRole == old(userRole) && userIsActive == old(userIsActive) && isEditingUser == old(isEditingUser)
    {
      users := RemoveById(users, user.id, UserId);
    }
  }
}
