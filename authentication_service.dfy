/** Registration and authentication against the user table. The password
    encoder, the credential check of the authentication manager and the
    token generator are library code; they are parameters here. */
module AuthenticationServices {
  import opened Errors
  import opened Entities
  import opened Calendar
  import opened UserRepositories

  /** A registration request: the id and registration date it may carry are
      replaced by the store. */
  datatype UserDto = UserDto(userName: string, userType: UserType, password: string)

  /** What `authenticate` ends in: a token, a registry error, or the
      credential check's rejection. */
  datatype AuthOutcome = Token(token: string) | Failed(error: Error) | BadCredentials

  class AuthenticationService {
    const repository: UserRepository

    constructor (repository: UserRepository)
      ensures this.repository == repository
    {
      this.repository := repository;
    }

    /** `register`: a user name already in the table gives USER_ALREADY_EXISTS
        and nothing is saved; otherwise exactly one user is saved, with the
        encoded password and today's date as its registration date. */
    method Register(dto: UserDto, encode: string -> string, today: Date, assignedId: string)
      returns (r: Result<User>)
      requires repository.Valid()
      requires forall v :: v in repository.users ==> v.id != assignedId
      modifies repository
      ensures repository.Valid()
      ensures old(repository.Find(dto.userName)).Some? <==> r.Err?
      ensures r.Err? ==> r.error == UserAlreadyExists && repository.users == old(repository.users)
      ensures r.Ok? ==> (r.value == User(assignedId, dto.userName, dto.userType, today, encode(dto.password))
                         && repository.users == old(repository.users) + [r.value]
                         && repository.Find(dto.userName) == Some(r.value))
    {
      if repository.Find(dto.userName).Some? {
        return Err(UserAlreadyExists);
      }
      var user := User(assignedId, dto.userName, dto.userType, today, encode(dto.password));
      repository.Insert(user);
      r := Ok(user);
    }

    /** `authenticate`: an unknown user name gives USER_NOT_FOUND before the
        credentials are looked at; known credentials that the check accepts
        give the token generated for the user name. */
    function Authenticate(userName: string, password: string,
                          credentialsValid: (string, string) -> bool,
                          generateToken: string -> string): (r: AuthOutcome)
      reads this, repository
      ensures r == Failed(UserNotFound) <==> repository.Find(userName).None?
      ensures r.Token? <==> repository.Find(userName).Some? && credentialsValid(userName, password)
      ensures r.Token? ==> r.token == generateToken(userName)
      ensures !r.Failed? || r.error == UserNotFound
    {
      match repository.Find(userName)
      case None => Failed(UserNotFound)
      case Some(user) =>
        if credentialsValid(user.userName, password) then Token(generateToken(userName)) else BadCredentials
    }
  }

  /** An unknown user name fails the same way whatever the credential check
      would have said. */
  lemma UnknownUserIgnoresCredentials(service: AuthenticationService, userName: string, password: string,
                                      c1: (string, string) -> bool, c2: (string, string) -> bool,
                                      generateToken: string -> string)
    requires service.repository.Find(userName).None?
    ensures service.Authenticate(userName, password, c1, generateToken)
         == service.Authenticate(userName, password, c2, generateToken)
         == Failed(UserNotFound)
  {
  }

  /** The service's scenarios: a first registration succeeds, a second one
      with the same name is refused, the registered user authenticates and an
      unknown one is not found. */
  method RegistrationScenario(encode: string -> string, today: Date)
    returns (first: Result<User>, second: Result<User>, known: AuthOutcome, unknown: AuthOutcome)
    ensures first == Ok(User("u1", "john", Customer, today, encode("secret")))
    ensures second == Err(UserAlreadyExists)
    ensures known == Token("token-john")
    ensures unknown == Failed(UserNotFound)
  {
    var repository := new UserRepository();
    var service := new AuthenticationService(repository);
    first := service.Register(UserDto("john", Customer, "secret"), encode, today, "u1");
    second := service.Register(UserDto("john", Employee, "other"), encode, today, "u2");
    known := service.Authenticate("john", "secret", (n: string, p: string) => p == "secret", (n: string) => "token-" + n);
    unknown := service.Authenticate("jane", "secret", (n: string, p: string) => true, (n: string) => "token-" + n);
  }
}
