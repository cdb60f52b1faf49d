/** The records the client exchanges with its server (`shared/models`),
    as values. Optional and nullable fields are `Option`s. */
module Models {
  import opened Wrappers

  /** A user account. `role` is typed as one of `User`, `Admin`, `Manager`,
      `Guest` in the client, but arrives as a string and is compared as one. */
  datatype User = User(
    id: string, email: string, role: string,
    firstName: string, lastName: string, isActive: bool)

  /** The credential triple and user the server returns on login,
      registration and renewal. */
  datatype AuthResponse = AuthResponse(
    accessToken: string, refreshToken: string, expiresAt: string, user: User)

  /** The two interface languages. */
  datatype Language = En | Es {
    /** The code under which the language is stored and compared. */
    function Code(): string {
      match this
      case En => "en"
      case Es => "es"
    }
  }

  /** The language a toggle switches to: the other one. */
  function OtherLanguage(l: Language): (r: Language)
    ensures r != l
  {
    if l == En then Es else En
  }

  datatype Board = Board(
    id: string, name: string, description: Option<string>,
    ownerId: string, createdAt: string, updatedAt: Option<string>)

  datatype Column = Column(
    id: string, boardId: string, name: string, position: real, createdAt: string)

  datatype TaskPriority = Low | Medium | High | Critical
  datatype TaskStatus = Open | InProgress | Completed | Cancelled | OnHold

  datatype Task = Task(
    id: string, boardId: string, columnId: string, title: string,
    description: Option<string>, dueAt: Option<string>,
    priority: TaskPriority, status: TaskStatus,
    assignedUserId: Option<string>, tags: seq<string>, position: real)

  datatype Note = Note(
    id: string, ownerId: string, title: string, content: string,
    createdAt: string, updatedAt: Option<string>)

  /** The tag colours PrimeNG offers. */
  datatype Severity = Success | Info | Warn | Danger | Secondary

  /** An error as the server or the transport reports it. */
  datatype HttpError = HttpError(status: int, message: string)
}
