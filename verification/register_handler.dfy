/** Self-registration (`RegisterCommandHandler`): no permission is asked for; the name is
    checked first, then the requested role picks the class, and the new user is tracked for
    insertion and saved. */
module Registration {
  import opened Wrappers
  import opened Exceptions
  import opened Text
  import UserType
  import opened Domain
  import opened Commands
  import opened Persistence

  const NameRequired: string := "User name is required."
  const InvalidUserType: string := "Invalid user type"
  const RegisterFailed: string := "An error occurred while registering the user."
  const RegisterRethrown: seq<ExceptionKind> := [Argument]

  /** The handler's checks, in order: a name that is not blank, then a member or staff role. */
  function Rejection(request: RegisterCommand): (e: Option<Exception>)
    ensures e.None? <==>
      !IsNullOrWhiteSpace(request.name) && request.userType.Some? && UserType.IsCreatable(request.userType.value)
    ensures e.Some? ==> e.value.kind == Argument
    ensures IsNullOrWhiteSpace(request.name) ==> e == Some(Exception(Argument, NameRequired))
  {
    if IsNullOrWhiteSpace(request.name) then Some(Exception(Argument, NameRequired))
    else if request.userType.None? || !UserType.IsCreatable(request.userType.value) then Some(Exception(Argument, InvalidUserType))
    else None
  }

  class RegisterCommandHandler {
    const userRepository: Repository<User>
    const unitOfWork: UnitOfWork

    constructor (userRepository: Repository<User>, unitOfWork: UnitOfWork)
      ensures this.userRepository == userRepository && this.unitOfWork == unitOfWork
    {
      this.userRepository := userRepository;
      this.unitOfWork := unitOfWork;
    }

    /** `Handle`: a failing check raises ArgumentException and nothing is tracked or saved.
        Otherwise a member (with an empty list) or a staff user carrying the name and role and
        no id is tracked for insertion and one save commits it; a failing save is wrapped
        unless it is an ArgumentException. */
    method Handle(request: RegisterCommand) returns (r: Outcome<User>)
      modifies userRepository, unitOfWork
      ensures Rejection(request).Some? ==> r == Throw(Rejection(request).value) && unchanged(userRepository, unitOfWork)
      ensures r.Ok? <==> Rejection(request).None? && old(unitOfWork.fault).None?
      ensures Rejection(request).None? ==>
        && |userRepository.added| == |old(userRepository.added)| + 1
        && userRepository.added[..|old(userRepository.added)|] == old(userRepository.added)
        && var user := userRepository.added[|old(userRepository.added)|];
        && fresh(user) && user.Valid()
        && (user.kind == MemberKind <==> request.userType.value == UserType.Member)
        && user.State() == UserState(request.userType, request.name, None, if user.kind == MemberKind then Some([]) else None)
        && userRepository.entities == old(userRepository.entities) && userRepository.updated == old(userRepository.updated)
        && (r.Ok? ==> r.value == user && unitOfWork.saves == old(unitOfWork.saves) + 1)
        && (r.Throw? ==> r == Catch(Throw(old(unitOfWork.fault).value), RegisterRethrown, RegisterFailed))
      ensures r.Throw? ==> unitOfWork.saves == old(unitOfWork.saves)
    {
      if IsNullOrWhiteSpace(request.name) {
        r := Throw(Exception(Argument, NameRequired));
        Rethrown(r, RegisterRethrown, RegisterFailed);
        return;
      }
      var built: Outcome<User>;
      if request.userType == Some(UserType.Member) {
        built := User.NewMember(request.name);
      } else if request.userType == Some(UserType.StaffMinor) || request.userType == Some(UserType.StaffManagement) {
        built := User.NewStaff(request.name, request.userType);
      } else {
        r := Throw(Exception(Argument, InvalidUserType));
        Rethrown(r, RegisterRethrown, RegisterFailed);
        return;
      }
      var user := built.value;
      userRepository.Add(user);
      var saved := unitOfWork.SaveChanges();
      r := Catch(if saved.Throw? then Throw(saved.error) else Ok(user), RegisterRethrown, RegisterFailed);
    }
  }
}
