/** The boards page (`BoardList`): validation of the board form, the
    request built from it, and the page state the dialog and the server's
    answers update. */
module BoardList {
  import opened Wrappers
  import opened Text
  import opened Models
  import opened Lists

  /** The body of the create and update calls. */
  datatype BoardRequest = BoardRequest(name: string, description: Option<string>)

  /** The request for the form's fields: the name trimmed, the description
      trimmed, or absent when it trims to nothing. */
  function BuildBoardRequest(name: string, description: string): (r: BoardRequest)
    ensures r.name == Trim(name) && IsTrimmed(r.name)
    ensures r.description.None? <==> IsBlank(description)
    ensures r.description.Some? ==> r.description.value == Trim(description) && r.description.value != ""
  {
    var d := Trim(description);
    BoardRequest(Trim(name), if d == "" then None else Some(d))
  }

  /** Building a request from the fields of a request built before gives
      that request back: the form round-trips a saved board. */
  lemma RequestRoundTrip(name: string, description: string)
    ensures var r := BuildBoardRequest(name, description);
      BuildBoardRequest(r.name, r.description.GetOr("")) == r
  {
    var r := BuildBoardRequest(name, description);
    TrimIdempotent(name);
    TrimIdempotent(description);
    if r.description.None? {
      assert IsBlank("");
    }
  }

  /** What `saveBoard` does before the server answers. */
  datatype SaveBoardOutcome =
    | NameRequired                                       // error shown, nothing sent
    | NoTarget                                           // editing without a board: nothing sent
    | CreateBoard(request: BoardRequest)
    | UpdateBoard(boardId: string, request: BoardRequest)
  {
    /** `isSaving` is set once the name passes, even when no request follows. */
    predicate SetsSaving() {
      !NameRequired?
    }
  }

  /** `saveBoard` with `createBoard`/`updateBoard`. */
  function SaveBoard(name: string, description: string, editMode: bool, currentBoard: Option<Board>): (o: SaveBoardOutcome)
    ensures o == NameRequired <==> IsBlank(name)
    ensures o.CreateBoard? <==> !IsBlank(name) && !editMode
    ensures o.UpdateBoard? <==> !IsBlank(name) && editMode && currentBoard.Some?
    ensures o.CreateBoard? || o.UpdateBoard? ==> o.request == BuildBoardRequest(name, description) && o.request.name != ""
    ensures o.UpdateBoard? ==> o.boardId == currentBoard.value.id
  {
    if Trim(name) == [] then NameRequired
    else if editMode then
      (if currentBoard.None? then NoTarget else UpdateBoard(currentBoard.value.id, BuildBoardRequest(name, description)))
    else CreateBoard(BuildBoardRequest(name, description))
  }

  /** `formatDate`: `-` for a missing or empty date, otherwise the date in
      the interface language's format (`localize`). */
  function FormatDate(date: Option<string>, localize: string -> string): (s: string)
    ensures date.None? || date.value == "" ==> s == "-"
    ensures date.Some? && date.value != "" ==> s == localize(date.value)
  {
    if date.None? || date.value == "" then "-" else localize(date.value)
  }

  function BoardId(b: Board): string { b.id }

  class BoardListPage {
    var boards: seq<Board>
    var showDialog: bool
    var isEditMode: bool
    var isSaving: bool
    var currentBoard: Option<Board>
    var boardName: string
    var boardDescription: string

    /** A closed dialog holds an empty form and no board. */
    predicate Valid()
      reads this
    {
      !showDialog ==> currentBoard.None? && boardName == "" && boardDescription == ""
    }

    constructor ()
      ensures Valid() && boards == [] && !showDialog && !isEditMode && !isSaving
    {
      boards := [];
      showDialog := false;
      isEditMode := false;
      isSaving := false;
      currentBoard := None;
      boardName := "";
      boardDescription := "";
    }

    /** `openCreateDialog`: an empty form for a new board. */
    method OpenCreateDialog()
      modifies this
      ensures Valid() && showDialog && !isEditMode && currentBoard.None? && boardName == "" && boardDescription == ""
      ensures boards == old(boards) && isSaving == old(isSaving)
    {
      isEditMode := false;
      currentBoard := None;
      boardName := "";
      boardDescription := "";
      showDialog := true;
    }

    /** `openEditDialog`: the form filled from `board`, an absent
        description shown as empty. */
    method OpenEditDialog(board: Board)
      modifies this
      ensures Valid() && showDialog && isEditMode && currentBoard == Some(board)
      ensures boardName == board.name && boardDescription == board.description.GetOr("")
      ensures boards == old(boards) && isSaving == old(isSaving)
    {
      isEditMode := true;
      currentBoard := Some(board);
      boardName := board.name;
      boardDescription := board.description.GetOr("");
      showDialog := true;
    }

    /** `closeDialog`: hides the dialog and empties the form. */
    method CloseDialog()
      modifies this
      ensures Valid() && !showDialog && currentBoard.None? && boardName == "" && boardDescription == ""
      ensures boards == old(boards) && isEditMode == old(isEditMode) && isSaving == old(isSaving)
    {
      showDialog := false;
      boardName := "";
      boardDescription := "";
      currentBoard := None;
    }

    /** `saveBoard`: the outcome for the current form; only the saving flag changes. */
    method SaveBoardClicked() returns (o: SaveBoardOutcome)
      requires Valid()
      modifies this
      ensures Valid()
      ensures o == SaveBoard(boardName, boardDescription, isEditMode, currentBoard)
      ensures isSaving == (old(isSaving) || o.SetsSaving())
      ensures boards == old(boards) && showDialog == old(showDialog) && currentBoard == old(currentBoard)
      ensures boardName == old(boardName) && boardDescription == old(boardDescription) && isEditMode == old(isEditMode)
    {
      o := SaveBoard(boardName, boardDescription, isEditMode, currentBoard);
      if o.SetsSaving() {
        isSaving := true;
      }
    }

    /** The server created `board`: it goes first, and the dialog closes. */
    method BoardCreated(board: Board)
      modifies this
      ensures Valid() && boards == [board] + old(boards) && !showDialog && !isSaving
      ensures isEditMode == old(isEditMode)
    {
      boards := [board] + boards;
      CloseDialog();
      isSaving := false;
    }

    /** The server updated a board: every board with its id is replaced. */
    method BoardUpdated(updated: Board)
      modifies this
      ensures Valid() && boards == ReplaceById(old(boards), updated, BoardId) && !showDialog && !isSaving
      ensures isEditMode == old(isEditMode)
    {
      boards := ReplaceById(boards, updated, BoardId);
      CloseDialog();
      isSaving := false;
    }

    /** The server refused a save: the dialog stays open with its form. */
    method SaveFailed()
      requires Valid()
      modifies this
      ensures Valid() && !isSaving && boards == old(boards) && showDialog == old(showDialog)
      ensures boardName == old(boardName) && boardDescription == old(boardDescription) && currentBoard == old(currentBoard)
      ensures isEditMode == old(isEditMode)
    {
      isSaving := false;
    }

    /** The server deleted the board with `id`: every board with that id goes. */
    method BoardDeleted(id: string)
      requires Valid()
      modifies this
      ensures Valid() && boards == RemoveById(old(boards), id, BoardId)
      ensures showDialog == old(showDialog) && isSaving == old(isSaving)
      ensures boardName == old(boardName) && boardDescription == old(boardDescription) && currentBoard == old(currentBoard)
      ensures isEditMode == old(isEditMode)
    {
      boards := RemoveById(boards, id, BoardId);
    }
  }
}
