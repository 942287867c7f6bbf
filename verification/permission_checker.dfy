/** The access-decision engine (PermissionChecker.cs): a fixed role-to-grants table and eight
    entry points. `Check` signals denial by throwing UnauthorizedAccessException; `CheckIf`
    answers with a boolean. Each takes its actors as ids or as resolved users, and asks either
    for one permission or for a self/process pair: `All` always wins, the self permission counts
    only when requester and target have the same id, and the process permission counts whatever
    the ids. */
module PermissionChecking {
  import opened Wrappers
  import opened Exceptions
  import opened Domain
  import Text
  import Persistence
  import P = Permission
  import UserType

  const InvalidUserData: string := "Access denied due to invalid user data."
  const RequesterNotFound: string := "Requesting user not found."
  const TargetNotFound: string := "Target user not found."
  const AccessDenied: string := "Access denied."

  function UserNotFound(userId: int): string {
    "User with ID " + Text.IntToString(userId) + " not found."
  }

  /** The messages of the dictionary indexer's two failures. */
  const NullKeyMessage: string := "Value cannot be null. (Parameter 'key')"
  function MissingKeyMessage(key: string): string {
    "The given key '" + key + "' was not present in the dictionary."
  }

  /** The role-to-grants table the constructor builds. */
  const UserTypePermissions: map<string, seq<string>> := map[
    UserType.None := [P.HandleGetAllBooks, P.HandleGetBookById, P.Public],
    UserType.Member := [
      P.HandleGetAllBooks, P.HandleGetBookById,
      P.SelfGetUserById, P.SelfUpdateUser, P.SelfBorrowBook, P.SelfReturnBook, P.SelfGetBorrowedBooks],
    UserType.StaffMinor := [
      P.HandleGetAllBooks, P.HandleGetBookById,
      P.SelfGetUserById, P.SelfUpdateUser,
      P.ProcessUpdateBook, P.ProcessCreateBook, P.ProcessDeleteBook,
      P.ProcessBorrowBook, P.ProcessReturnBook, P.ProcessGetBorrowedBooks],
    UserType.StaffManagement := [
      P.ProcessGetAllUsers, P.HandleGetAllBooks, P.HandleGetBookById,
      P.SelfGetUserById, P.SelfUpdateUser,
      P.ProcessUpdateUser, P.ProcessCreateUser, P.ProcessDeleteUser,
      P.ProcessCreateBook, P.ProcessUpdateBook, P.ProcessBorrowBook, P.ProcessDeleteBook,
      P.ProcessReturnBook, P.ProcessGetBorrowedBooks]
  ]

  /** The single-permission rule: the grants hold `All` or the permission itself. */
  predicate Allows(grants: seq<string>, permission: string) {
    P.All in grants || permission in grants
  }

  /** The paired rule: `All`; or the self permission when requester and target are the same
      user; or the process permission whoever the target is. */
  predicate AllowsPair(grants: seq<string>, sameUser: bool, selfPermission: string, processPermission: string) {
    || P.All in grants
    || (sameUser && selfPermission in grants)
    || processPermission in grants
  }

  /** The table has a row for each of the four roles and no other, and no row grants `All`. */
  lemma MatrixShape()
    ensures UserTypePermissions.Keys == {UserType.None, UserType.Member, UserType.StaffMinor, UserType.StaffManagement}
    ensures forall role :: role in UserTypePermissions ==> P.All !in UserTypePermissions[role]
  {
    forall role | role in UserTypePermissions
      ensures P.All !in UserTypePermissions[role]
    {
      P.SpecialTokensDistinct();
    }
  }

  /** Every role a user object can carry has a row. */
  lemma AcceptedTypesHaveRows(kind: UserKind, userType: Option<string>)
    requires TypeAccepted(kind, userType)
    ensures userType.value in UserTypePermissions
  {
  }

  /** StaffManagement holds every grant StaffMinor holds, so it is allowed whenever StaffMinor is,
      in both the single and the paired form. */
  lemma {:induction false} ManagementIncludesMinor(permission: string, sameUser: bool, selfPermission: string, processPermission: string)
    ensures Allows(UserTypePermissions[UserType.StaffMinor], permission) ==>
            Allows(UserTypePermissions[UserType.StaffManagement], permission)
    ensures AllowsPair(UserTypePermissions[UserType.StaffMinor], sameUser, selfPermission, processPermission) ==>
            AllowsPair(UserTypePermissions[UserType.StaffManagement], sameUser, selfPermission, processPermission)
  {
    var minor := UserTypePermissions[UserType.StaffMinor];
    var management := UserTypePermissions[UserType.StaffManagement];
    forall t | t in minor
      ensures t in management
    {
    }
  }

  /** A member holds no `Process.*` token, so a member asking about another user's record under
      any process permission is denied. */
  lemma MemberDeniedOnOthers(selfPermission: string, processPermission: string)
    requires processPermission in P.ProcessTokens()
    ensures !AllowsPair(UserTypePermissions[UserType.Member], false, selfPermission, processPermission)
  {
    MatrixShape();
  }

  /** `Process.GetUserById` is declared but no role is granted it. */
  lemma ProcessGetUserByIdUngranted()
    ensures forall role :: role in UserTypePermissions ==> P.ProcessGetUserById !in UserTypePermissions[role]
  {
  }

  /** Holding the self permission alone never reaches another user's record. */
  lemma SelfOnlyStaysWithSelf(grants: seq<string>, selfPermission: string, processPermission: string)
    requires selfPermission in grants && processPermission !in grants && P.All !in grants
    ensures AllowsPair(grants, true, selfPermission, processPermission)
    ensures !AllowsPair(grants, false, selfPermission, processPermission)
  {
  }

  class PermissionChecker {
    /** The table, fixed when the checker is built. */
    const userTypePermissions: map<string, seq<string>> := UserTypePermissions
    const userRepository: Persistence.Repository<User>

    constructor (userRepository: Persistence.Repository<User>)
      ensures this.userRepository == userRepository
    {
      this.userRepository := userRepository;
    }

    /** `GetUser`: the stored user, or InvalidOperationException. */
    function GetUser(userId: int): (r: Outcome<User>)
      reads userRepository
      ensures r.Ok? <==> userId in userRepository.entities
      ensures r.Ok? ==> r.value == userRepository.entities[userId]
      ensures r.Throw? ==> r.error == Exception(InvalidOperation, UserNotFound(userId))
    {
      match userRepository.Get(userId)
      case Some(user) => Ok(user)
      case None => Throw(Exception(InvalidOperation, UserNotFound(userId)))
    }

    /** `GetUserPermissions`: the row of the user's role, the `None` row for a null user. The
        dictionary indexer throws for a null role and for a role without a row, which cannot
        happen to a user whose role went through the `Type` setter. */
    function GetUserPermissions(user: User?): (r: Outcome<seq<string>>)
      reads user
      ensures r.Ok? <==> user == null || (user.userType.Some? && user.userType.value in UserTypePermissions)
      ensures user != null && user.Valid() && user.userType.Some? ==> r.Ok?
      ensures r.Ok? ==> P.All !in r.value
      ensures user != null && user.userType.None? ==> r == Throw(Exception(ArgumentNull, NullKeyMessage))
    {
      MatrixShape();
      if user == null then Ok(userTypePermissions[UserType.None])
      else if user.userType.None? then Throw(Exception(ArgumentNull, NullKeyMessage))
      else if user.userType.value !in userTypePermissions then
        Throw(Exception(KeyNotFound, MissingKeyMessage(user.userType.value)))
      else Ok(userTypePermissions[user.userType.value])
    }

    /** `HasPermission`: the single-permission rule on the user's row. Since no row grants `All`,
        the answer is simply whether the row lists the permission. */
    function HasPermission(user: User?, permission: string): (r: Outcome<bool>)
      reads user
      ensures r.Throw? <==> GetUserPermissions(user).Throw?
      ensures r.Throw? ==> r.error == GetUserPermissions(user).error
      ensures r.Ok? ==> r.value == Allows(GetUserPermissions(user).value, permission)
      ensures r.Ok? ==> r.value == (permission in GetUserPermissions(user).value)
    {
      match GetUserPermissions(user)
      case Throw(e) => Throw(e)
      case Ok(grants) => Ok(P.All in grants || permission in grants)
    }

    /** `CheckUserAccess`: the paired rule. The ids are read only when `All` is not held, the
        requester's first; an unset id throws NullReferenceException. */
    function CheckUserAccess(requestUser: User, targetUser: User, selfPermission: string, processPermission: string)
      : (r: Outcome<()>)
      reads requestUser, targetUser
      ensures r.Ok? <==>
        && GetUserPermissions(requestUser).Ok?
        && (|| P.All in GetUserPermissions(requestUser).value
            || (&& requestUser.id.Some? && targetUser.id.Some?
                && AllowsPair(GetUserPermissions(requestUser).value, requestUser.id == targetUser.id,
                              selfPermission, processPermission)))
      ensures r.Throw? && r.error.kind == UnauthorizedAccess ==> r.error == Exception(UnauthorizedAccess, AccessDenied)
      ensures GetUserPermissions(requestUser).Ok? && (requestUser.id.None? || targetUser.id.None?) ==>
        r == Throw(Exception(NullReference, NullReferenceMessage))
    {
      var lookup := GetUserPermissions(requestUser);
      if lookup.Throw? then Throw(lookup.error)
      else
        var grants := lookup.value;
        var all := P.All in grants;
        if !all && requestUser.Id().Throw? then Throw(requestUser.Id().error)
        else if !all && targetUser.Id().Throw? then Throw(targetUser.Id().error)
        else if all || (requestUser.Id() == targetUser.Id() && selfPermission in grants) then Ok(())
        else if processPermission in grants then Ok(())
        else Throw(Exception(UnauthorizedAccess, AccessDenied))
    }

    // ------------------------------------------------------------ boolean forms

    /** `CheckIf(int, int, string, string)`: true exactly when both ids resolve and the paired
        rule admits the requester; every failure reads as false. */
    function CheckIfPair(requestUserId: int, targetUserId: int, selfPermission: string, processPermission: string)
      : (allowed: bool)
      reads userRepository, userRepository.entities.Values
      ensures allowed ==> requestUserId in userRepository.entities && targetUserId in userRepository.entities
      ensures allowed <==>
        && requestUserId in userRepository.entities && targetUserId in userRepository.entities
        && CheckUserAccess(userRepository.entities[requestUserId], userRepository.entities[targetUserId],
                           selfPermission, processPermission).Ok?
    {
      match (GetUser(requestUserId), GetUser(targetUserId))
      case (Ok(requester), Ok(target)) => CheckUserAccess(requester, target, selfPermission, processPermission).Ok?
      case _ => false
    }

    /** `CheckIf(BaseUser, BaseUser, string, string)`: a null actor reads as false and so does a
        denial, but only UnauthorizedAccessException is caught: an unset id or an unknown role
        still escapes. */
    function CheckIfPairUsers(requestUser: User?, targetUser: User?, selfPermission: string, processPermission: string)
      : (r: Outcome<bool>)
      reads requestUser, targetUser
      ensures requestUser == null || targetUser == null ==> r == Ok(false)
      ensures requestUser != null && targetUser != null ==>
        (r == Ok(true) <==> CheckUserAccess(requestUser, targetUser, selfPermission, processPermission).Ok?)
      ensures r.Throw? ==> r.error.kind != UnauthorizedAccess
    {
      if requestUser == null || targetUser == null then Ok(false)
      else
        match CheckUserAccess(requestUser, targetUser, selfPermission, processPermission)
        case Ok(_) => Ok(true)
        case Throw(e) => if e.kind == UnauthorizedAccess then Ok(false) else Throw(e)
    }

    /** `CheckIf(int, string)`: catches everything, so it is total. */
    function CheckIf(userId: int, permission: string): (allowed: bool)
      reads userRepository, userRepository.entities.Values
      ensures allowed <==>
        && userId in userRepository.entities
        && HasPermission(userRepository.entities[userId], permission) == Ok(true)
    {
      match GetUser(userId)
      case Throw(_) => false
      case Ok(user) =>
        match CheckIfUser(user, permission)
        case Ok(b) => b
        case Throw(_) => false
    }

    /** `CheckIf(BaseUser, string)`: a null user reads as false; an unknown role escapes. */
    function CheckIfUser(user: User?, permission: string): (r: Outcome<bool>)
      reads user
      ensures user == null ==> r == Ok(false)
      ensures user != null ==> r == HasPermission(user, permission)
      ensures user != null && user.Valid() && user.userType.Some? ==> r.Ok?
    {
      if user == null then Ok(false) else HasPermission(user, permission)
    }

    // ------------------------------------------------------------ throwing forms

    /** `Check(int, int, string, string)`: every failure other than a denial, an unresolvable
        id included, becomes a denial with the "invalid user data" message; it succeeds exactly
        when the boolean form answers true. */
    method CheckPair(requestUserId: int, targetUserId: int, selfPermission: string, processPermission: string)
      returns (r: Outcome<()>)
      ensures r.Ok? <==> CheckIfPair(requestUserId, targetUserId, selfPermission, processPermission)
      ensures r.Throw? ==> r.error.kind == UnauthorizedAccess
      ensures r.Throw? && (requestUserId !in userRepository.entities || targetUserId !in userRepository.entities) ==>
        r.error.message == InvalidUserData
      ensures r.Throw? ==> r.error.message == InvalidUserData || r.error.message == AccessDenied
    {
      var requester := GetUser(requestUserId);
      if requester.Throw? {
        return Throw(Exception(UnauthorizedAccess, InvalidUserData));
      }
      var target := GetUser(targetUserId);
      if target.Throw? {
        return Throw(Exception(UnauthorizedAccess, InvalidUserData));
      }
      r := CheckUserAccess(requester.value, target.value, selfPermission, processPermission);
      if r.Throw? && r.error.kind != UnauthorizedAccess {
        r := Throw(Exception(UnauthorizedAccess, InvalidUserData));
      }
    }

    /** `Check(BaseUser, BaseUser, string, string)`: null actors are denied with their own
        messages; otherwise it agrees with the boolean form, whose escaping exceptions it shares. */
    method CheckPairUsers(requestUser: User?, targetUser: User?, selfPermission: string, processPermission: string)
      returns (r: Outcome<()>)
      ensures requestUser == null ==> r == Throw(Exception(UnauthorizedAccess, RequesterNotFound))
      ensures requestUser != null && targetUser == null ==> r == Throw(Exception(UnauthorizedAccess, TargetNotFound))
      ensures r.Ok? <==> CheckIfPairUsers(requestUser, targetUser, selfPermission, processPermission) == Ok(true)
      ensures r.Throw? && r.error.kind == UnauthorizedAccess <==>
        CheckIfPairUsers(requestUser, targetUser, selfPermission, processPermission) == Ok(false)
      ensures CheckIfPairUsers(requestUser, targetUser, selfPermission, processPermission).Throw? ==>
        r == Throw(CheckIfPairUsers(requestUser, targetUser, selfPermission, processPermission).error)
    {
      if requestUser == null {
        return Throw(Exception(UnauthorizedAccess, RequesterNotFound));
      }
      if targetUser == null {
        return Throw(Exception(UnauthorizedAccess, TargetNotFound));
      }
      r := CheckUserAccess(requestUser, targetUser, selfPermission, processPermission);
    }

    /** `Check(int, string, string)`: every failure becomes a denial carrying the caller's
        message; it succeeds exactly when the boolean form answers true. */
    method Check(userId: int, permission: string, errorMessage: string) returns (r: Outcome<()>)
      ensures r.Ok? <==> CheckIf(userId, permission)
      ensures r.Throw? ==> r.error == Exception(UnauthorizedAccess, errorMessage)
    {
      var user := GetUser(userId);
      if user.Throw? {
        return Throw(Exception(UnauthorizedAccess, errorMessage));
      }
      r := CheckUser(user.value, permission, errorMessage);
      if r.Throw? && r.error.kind != UnauthorizedAccess {
        r := Throw(Exception(UnauthorizedAccess, errorMessage));
      }
    }

    /** `Check(BaseUser, string, string)`: a null user or a missing grant is a denial with the
        caller's message; an unknown role escapes. */
    method CheckUser(user: User?, permission: string, errorMessage: string) returns (r: Outcome<()>)
      ensures user == null ==> r == Throw(Exception(UnauthorizedAccess, errorMessage))
      ensures r.Ok? <==> CheckIfUser(user, permission) == Ok(true)
      ensures CheckIfUser(user, permission) == Ok(false) ==> r == Throw(Exception(UnauthorizedAccess, errorMessage))
      ensures CheckIfUser(user, permission).Throw? ==> r == Throw(CheckIfUser(user, permission).error)
    {
      if user == null {
        return Throw(Exception(UnauthorizedAccess, errorMessage));
      }
      var has := HasPermission(user, permission);
      if has.Throw? {
        return Throw(has.error);
      }
      if !has.value {
        return Throw(Exception(UnauthorizedAccess, errorMessage));
      }
      return Ok(());
    }

    // ------------------------------------------------------------ properties

    /** For a user whose role went through the `Type` setter, the single-permission check is
        total and follows the role's row. */
    lemma SingleRule(user: User, permission: string)
      requires user.Valid() && user.userType.Some?
      ensures CheckIfUser(user, permission) == Ok(permission in UserTypePermissions[user.userType.value])
    {
    }

    /** For users with roles and ids, the paired check is total and follows the paired rule. */
    lemma PairRule(requestUser: User, targetUser: User, selfPermission: string, processPermission: string)
      requires requestUser.Valid() && requestUser.userType.Some? && requestUser.id.Some? && targetUser.id.Some?
      ensures CheckIfPairUsers(requestUser, targetUser, selfPermission, processPermission) ==
        Ok(AllowsPair(UserTypePermissions[requestUser.userType.value], requestUser.id == targetUser.id,
                      selfPermission, processPermission))
    {
    }

    /** An id the repository cannot resolve makes every id-based boolean form answer false. */
    lemma UnresolvedIdDenied(userId: int, otherId: int, permission: string, selfPermission: string, processPermission: string)
      requires userId !in userRepository.entities
      ensures !CheckIf(userId, permission)
      ensures !CheckIfPair(userId, otherId, selfPermission, processPermission)
      ensures !CheckIfPair(otherId, userId, selfPermission, processPermission)
    {
    }

    /** A member never passes a paired check on another member's record under a process
        permission, whatever the self permission. */
    lemma MemberCannotActOnOthers(requestUser: User, targetUser: User, selfPermission: string, processPermission: string)
      requires requestUser.userType == Some(UserType.Member)
      requires requestUser.id.Some? && targetUser.id.Some? && requestUser.id != targetUser.id
      requires processPermission in P.ProcessTokens()
      ensures CheckIfPairUsers(requestUser, targetUser, selfPermission, processPermission) == Ok(false)
    {
      MemberDeniedOnOthers(selfPermission, processPermission);
    }
  }
}
