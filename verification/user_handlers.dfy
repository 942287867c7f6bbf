/** The user administration use cases: `CreateUserCommandHandler`, `UpdateUserHandler` and
    `DeleteUserCommandHandler`. As in the borrowing use cases, each runs its steps inside one
    try block whose catch clauses rethrow the expected exception types and wrap anything else;
    the permission token is a parameter. */
module UserAdministration {
  import opened Wrappers
  import opened Exceptions
  import opened Text
  import UserType
  import opened Domain
  import opened Commands
  import opened Persistence
  import opened PermissionChecking

  function UserMissing(userId: int): string {
    "User with ID " + IntToString(userId) + " was not found."
  }

  // ------------------------------------------------------------ CreateUserCommandHandler

  const CreateUserDenied: string := "User does not have permission to create users."
  const InvalidUserType: string := "Invalid user type"
  const CreateUserFailed: string := "An error occurred while creating the user."
  const CreateUserRethrown: seq<ExceptionKind> := [UnauthorizedAccess, Argument]

  /** The class the `switch` on the requested type instantiates: Member for the member role,
      Staff for either staff role. */
  function KindFor(userType: string): (kind: UserKind)
    requires UserType.IsCreatable(userType)
    ensures kind == MemberKind <==> userType == UserType.Member
    ensures TypeAccepted(kind, Some(userType))
  {
    if userType == UserType.Member then MemberKind else StaffKind
  }

  class CreateUserCommandHandler {
    const permissionChecker: PermissionChecker
    const userRepository: Repository<User>
    const unitOfWork: UnitOfWork

    constructor (permissionChecker: PermissionChecker, userRepository: Repository<User>, unitOfWork: UnitOfWork)
      ensures this.permissionChecker == permissionChecker && this.userRepository == userRepository
      ensures this.unitOfWork == unitOfWork
    {
      this.permissionChecker := permissionChecker;
      this.userRepository := userRepository;
      this.unitOfWork := unitOfWork;
    }

    /** The checks before anything is tracked, in order: the permission, a member or staff role
        (anything else, "None" and a missing type included, is an invalid type), a name that is
        not blank. */
    function Rejection(request: CreateUserCommand, permission: string): (e: Option<Exception>)
      reads this, permissionChecker, permissionChecker.userRepository, permissionChecker.userRepository.entities.Values
      ensures e.None? <==>
        && permissionChecker.CheckIf(request.authId, permission)
        && request.userType.Some? && UserType.IsCreatable(request.userType.value)
        && !IsNullOrWhiteSpace(request.name)
      ensures e.Some? ==> e.value.kind in CreateUserRethrown
      ensures !permissionChecker.CheckIf(request.authId, permission) ==>
        e == Some(Exception(UnauthorizedAccess, CreateUserDenied))
    {
      if !permissionChecker.CheckIf(request.authId, permission) then Some(Exception(UnauthorizedAccess, CreateUserDenied))
      else if request.userType.None? || !UserType.IsCreatable(request.userType.value) then Some(Exception(Argument, InvalidUserType))
      else if IsNullOrWhiteSpace(request.name) then Some(Exception(Argument, NameEmpty))
      else None
    }

    /** `Handle`: the first failing check raises its exception and nothing is tracked or saved.
        Otherwise a new user of the requested class, carrying the requested name and role and
        no id (the database issues it), is tracked for insertion and one save commits it; a
        failing save is wrapped unless it is of a rethrown type. */
    method Handle(request: CreateUserCommand, permission: string) returns (r: Outcome<User>)
      modifies userRepository, unitOfWork
      ensures old(Rejection(request, permission)).Some? ==>
        r == Throw(old(Rejection(request, permission)).value) && unchanged(userRepository, unitOfWork)
      ensures r.Ok? <==> old(Rejection(request, permission)).None? && old(unitOfWork.fault).None?
      ensures old(Rejection(request, permission)).None? ==>
        && |userRepository.added| == |old(userRepository.added)| + 1
        && userRepository.added[..|old(userRepository.added)|] == old(userRepository.added)
        && var user := userRepository.added[|old(userRepository.added)|];
        && fresh(user) && user.kind == KindFor(request.userType.value) && user.Valid()
        && user.State() == UserState(request.userType, request.name, None, if user.kind == MemberKind then Some([]) else None)
        && userRepository.entities == old(userRepository.entities) && userRepository.updated == old(userRepository.updated)
        && (r.Ok? ==> r.value == user && unitOfWork.saves == old(unitOfWork.saves) + 1)
        && (r.Throw? ==> r == Catch(Throw(old(unitOfWork.fault).value), CreateUserRethrown, CreateUserFailed))
      ensures r.Throw? ==> unitOfWork.saves == old(unitOfWork.saves)
    {
      var check := permissionChecker.Check(request.authId, permission, CreateUserDenied);
      if check.Throw? {
        r := Throw(check.error);
        Rethrown(r, CreateUserRethrown, CreateUserFailed);
        return;
      }
      if request.userType.None? || !UserType.IsCreatable(request.userType.value) {
        r := Throw(Exception(Argument, InvalidUserType));
        Rethrown(r, CreateUserRethrown, CreateUserFailed);
        return;
      }
      var built := User.Initialised(KindFor(request.userType.value), request.name, request.userType);
      if built.Throw? {
        r := built;
        Rethrown(r, CreateUserRethrown, CreateUserFailed);
        return;
      }
      var user := built.value;
      userRepository.Add(user);
      var saved := unitOfWork.SaveChanges();
      r := Catch(if saved.Throw? then Throw(saved.error) else Ok(user), CreateUserRethrown, CreateUserFailed);
    }
  }

  // ------------------------------------------------------------ UpdateUserHandler

  const UpdateUserDenied: string := "User does not have permission to update users."
  const UpdateUserRethrown: seq<ExceptionKind> := [UnauthorizedAccess, KeyNotFound, Argument]

  function UpdateUserFailed(userId: int): string {
    "An error occurred while updating user with ID " + IntToString(userId) + "."
  }

  class UpdateUserHandler {
    const permissionChecker: PermissionChecker
    const userRepository: Repository<User>
    const unitOfWork: UnitOfWork

    constructor (permissionChecker: PermissionChecker, userRepository: Repository<User>, unitOfWork: UnitOfWork)
      ensures this.permissionChecker == permissionChecker && this.userRepository == userRepository
      ensures this.unitOfWork == unitOfWork
    {
      this.permissionChecker := permissionChecker;
      this.userRepository := userRepository;
      this.unitOfWork := unitOfWork;
    }

    /** The checks before anything changes: the permission, then a user under the given id. */
    function Rejection(request: UpdateUserCommand, permission: string): (e: Option<Exception>)
      reads this, permissionChecker, permissionChecker.userRepository, permissionChecker.userRepository.entities.Values
      reads userRepository
      ensures e.None? <==> permissionChecker.CheckIf(request.authId, permission) && request.userId in userRepository.entities
      ensures e.Some? ==> e.value.kind in UpdateUserRethrown
      ensures !permissionChecker.CheckIf(request.authId, permission) ==>
        e == Some(Exception(UnauthorizedAccess, UpdateUserDenied))
    {
      if !permissionChecker.CheckIf(request.authId, permission) then Some(Exception(UnauthorizedAccess, UpdateUserDenied))
      else if request.userId !in userRepository.entities then Some(Exception(KeyNotFound, UserMissing(request.userId)))
      else None
    }

    /** `Handle`: the first failing check raises its exception and nothing changes. Otherwise
        the user takes the requested name unless that name is blank (every other field is left
        as it was), is marked updated, and one save commits it; a failing save is wrapped
        unless it is of a rethrown type. */
    method Handle(request: UpdateUserCommand, permission: string) returns (r: Outcome<User>)
      modifies userRepository, unitOfWork, userRepository.entities.Values
      ensures old(Rejection(request, permission)).Some? ==>
        && r == Throw(old(Rejection(request, permission)).value)
        && unchanged(userRepository, unitOfWork)
        && (forall u :: u in old(userRepository.entities.Values) ==> unchanged(u))
      ensures r.Ok? <==> old(Rejection(request, permission)).None? && old(unitOfWork.fault).None?
      ensures old(Rejection(request, permission)).None? ==>
        var user := old(userRepository.entities[request.userId]);
        && user.State() == old(user.State()).(name := if IsNullOrWhiteSpace(request.name) then old(user.name) else request.name)
        && (old(user.Valid()) ==> user.Valid())
        && (forall u :: u in old(userRepository.entities.Values) && u != user ==> unchanged(u))
        && userRepository.entities == old(userRepository.entities) && userRepository.added == old(userRepository.added)
        && userRepository.updated == old(userRepository.updated) + [user]
        && (r.Ok? ==> r.value == user && unitOfWork.saves == old(unitOfWork.saves) + 1)
        && (r.Throw? ==> r == Catch(Throw(old(unitOfWork.fault).value), UpdateUserRethrown, UpdateUserFailed(request.userId)))
      ensures r.Throw? ==> unitOfWork.saves == old(unitOfWork.saves)
    {
      var check := permissionChecker.Check(request.authId, permission, UpdateUserDenied);
      if check.Throw? {
        r := Throw(check.error);
        Rethrown(r, UpdateUserRethrown, UpdateUserFailed(request.userId));
        return;
      }
      var found := userRepository.Get(request.userId);
      if found.None? {
        r := Throw(Exception(KeyNotFound, UserMissing(request.userId)));
        Rethrown(r, UpdateUserRethrown, UpdateUserFailed(request.userId));
        return;
      }
      var outcome := Rename(found.value, request.name);
      r := Catch(outcome, UpdateUserRethrown, UpdateUserFailed(request.userId));
    }

    /** The steps once the user is found: a name that is not blank replaces the old one, the
        user is marked updated and one save commits it. */
    method Rename(user: User, name: Option<string>) returns (outcome: Outcome<User>)
      modifies user, userRepository, unitOfWork
      ensures user.State() == old(user.State()).(name := if IsNullOrWhiteSpace(name) then old(user.name) else name)
      ensures old(user.Valid()) ==> user.Valid()
      ensures userRepository.entities == old(userRepository.entities) && userRepository.added == old(userRepository.added)
      ensures userRepository.updated == old(userRepository.updated) + [user]
      ensures old(unitOfWork.fault).None? ==> outcome == Ok(user) && unitOfWork.saves == old(unitOfWork.saves) + 1
      ensures old(unitOfWork.fault).Some? ==> outcome == Throw(old(unitOfWork.fault).value) && unitOfWork.saves == old(unitOfWork.saves)
    {
      if !IsNullOrWhiteSpace(name) {
        var renamed := user.SetName(name);
      }
      userRepository.Update(user);
      var saved := unitOfWork.SaveChanges();
      outcome := if saved.Throw? then Throw(saved.error) else Ok(user);
    }
  }

  // ------------------------------------------------------------ DeleteUserCommandHandler

  const DeleteUserRethrown: seq<ExceptionKind> := [KeyNotFound]

  function DeleteUserFailed(userId: int): string {
    "An error occurred while deleting user with ID " + IntToString(userId) + "."
  }

  class DeleteUserCommandHandler {
    const permissionChecker: PermissionChecker
    const userRepository: Repository<User>
    const unitOfWork: UnitOfWork

    constructor (permissionChecker: PermissionChecker, userRepository: Repository<User>, unitOfWork: UnitOfWork)
      ensures this.permissionChecker == permissionChecker && this.userRepository == userRepository
      ensures this.unitOfWork == unitOfWork
    {
      this.permissionChecker := permissionChecker;
      this.userRepository := userRepository;
      this.unitOfWork := unitOfWork;
    }

    /** `Handle`: no permission is asked for. The user under the id leaves the repository and
        one save commits it; an unknown id raises KeyNotFound without saving, and a failing
        save is wrapped unless it is of the rethrown type. */
    method Handle(request: DeleteUserCommand) returns (r: Outcome<User>)
      modifies userRepository, unitOfWork
      ensures userRepository.entities == old(userRepository.entities) - {request.userId}
      ensures userRepository.added == old(userRepository.added) && userRepository.updated == old(userRepository.updated)
      ensures request.userId !in old(userRepository.entities) ==>
        r == Throw(Exception(KeyNotFound, UserMissing(request.userId))) && unchanged(userRepository, unitOfWork)
      ensures r.Ok? <==> request.userId in old(userRepository.entities) && old(unitOfWork.fault).None?
      ensures r.Ok? ==> r.value == old(userRepository.entities[request.userId]) && unitOfWork.saves == old(unitOfWork.saves) + 1
      ensures request.userId in old(userRepository.entities) && r.Throw? ==>
        r == Catch(Throw(old(unitOfWork.fault).value), DeleteUserRethrown, DeleteUserFailed(request.userId))
      ensures r.Throw? ==> unitOfWork.saves == old(unitOfWork.saves)
    {
      var removed := userRepository.Remove(request.userId);
      if removed.None? {
        r := Throw(Exception(KeyNotFound, UserMissing(request.userId)));
        Rethrown(r, DeleteUserRethrown, DeleteUserFailed(request.userId));
        return;
      }
      var saved := unitOfWork.SaveChanges();
      r := Catch(if saved.Throw? then Throw(saved.error) else Ok(removed.value), DeleteUserRethrown, DeleteUserFailed(request.userId));
    }
  }
}
