/** The tic-tac-toe example game hosted by the same turn-based engine: a
    3 x 3 board updated in place, line-based winner detection, and a move
    reducer that alternates the two symbols. */
module TicTacToe {
  import opened Errors

  newtype u8 = x: int | 0 <= x < 256

  datatype Symbol = Cross | Circle

  function Other(s: Symbol): (r: Symbol)
    ensures r != s
  {
    match s
    case Cross => Circle
    case Circle => Cross
  }

  /** Other always changes the symbol, and applying it twice gives it back. */
  lemma OtherSwaps(s: Symbol)
    ensures Other(s) != s
    ensures Other(Other(s)) == s
  {
  }

  /** A field is empty (None) or holds a symbol. */
  type Field = Option<Symbol>

  datatype TicTacToeError = OutOfBoard | AlreadyOccupied

  /** What a move leads to: the new state, or why it was refused. */
  datatype MoveResult<T> = Moved(value: T) | Refused(error: TicTacToeError)

  /** The three rows, three columns and two diagonals, as field positions. */
  const Lines: seq<seq<nat>> := [
    [0, 1, 2], [3, 4, 5], [6, 7, 8],
    [0, 3, 6], [1, 4, 7], [2, 5, 8],
    [0, 4, 8], [2, 4, 6]
  ]

  lemma LinesAreOnTheBoard()
    ensures forall k, j :: 0 <= k < |Lines| && 0 <= j < |Lines[k]| ==> Lines[k][j] < 9
  {
  }

  class Board {
    const fields: array<Field>

    ghost predicate Valid()
      reads this
    {
      fields.Length == 9
    }

    constructor Empty()
      ensures Valid() && fresh(fields)
      ensures forall i :: 0 <= i < 9 ==> fields[i] == None
    {
      fields := new Field[9](_ => None);
    }

    /** Puts a symbol on an empty field; off the board or on an occupied field
        it is refused and the board is left as it was. */
    method Place(position: u8, symbol: Symbol) returns (r: MoveResult<()>)
      requires Valid()
      modifies fields
      ensures position >= 9 ==> r == Refused(OutOfBoard) && fields[..] == old(fields[..])
      ensures position < 9 && old(fields[position]).Some? ==>
        r == Refused(AlreadyOccupied) && fields[..] == old(fields[..])
      ensures position < 9 && old(fields[position]).None? ==>
        r.Moved? && fields[..] == old(fields[..])[position as int := Some(symbol)]
    {
      if position >= 9 {
        r := Refused(OutOfBoard);
      } else if fields[position] != None {
        r := Refused(AlreadyOccupied);
      } else {
        fields[position] := Some(symbol);
        r := Moved(());
      }
    }

    /** Line k holds the same symbol s in all three fields. */
    ghost predicate LineWonBy(k: nat, s: Symbol)
      reads this, fields
      requires Valid() && k < |Lines|
    {
      LinesAreOnTheBoard();
      forall j :: 0 <= j < 3 ==> fields[Lines[k][j]] == Some(s)
    }

    /** The symbol of the first line, in the order of Lines from k on, whose
        three fields hold the same symbol. */
    function WinnerFrom(k: nat): (r: Option<Symbol>)
      reads this, fields
      requires Valid() && k <= |Lines|
      ensures r.Some? ==> exists m :: k <= m < |Lines| && LineWonBy(m, r.value)
      ensures r.None? <==> forall m, s :: k <= m < |Lines| ==> !LineWonBy(m, s)
      decreases |Lines| - k
    {
      LinesAreOnTheBoard();
      if k == |Lines| then None
      else
        var line := Lines[k];
        if fields[line[0]] == fields[line[1]] && fields[line[1]] == fields[line[2]] && fields[line[0]].Some?
        then
          assert LineWonBy(k, fields[line[0]].value);
          Some(fields[line[0]].value)
        else
          var rest := WinnerFrom(k + 1);
          assert forall s :: !LineWonBy(k, s);
          rest
    }

    /** A symbol that fills some line, or None when no line is filled by one symbol. */
    function Winner(): (r: Option<Symbol>)
      reads this, fields
      requires Valid()
      ensures r.Some? ==> exists m :: 0 <= m < |Lines| && LineWonBy(m, r.value)
      ensures r.None? <==> forall m, s :: 0 <= m < |Lines| ==> !LineWonBy(m, s)
    {
      WinnerFrom(0)
    }

    /** Whether the fields from position i on all hold a symbol. */
    function FilledFrom(i: nat): (r: bool)
      reads this, fields
      requires Valid() && i <= 9
      ensures r <==> forall j :: i <= j < 9 ==> fields[j].Some?
      decreases 9 - i
    {
      i == 9 || (fields[i].Some? && FilledFrom(i + 1))
    }

    /** Every field holds a symbol. */
    function Filled(): (r: bool)
      reads this, fields
      requires Valid()
      ensures r <==> forall j :: 0 <= j < 9 ==> fields[j].Some?
    {
      FilledFrom(0)
    }

    /** A copy of the board with its own fields. */
    method Clone() returns (copy: Board)
      requires Valid()
      ensures fresh(copy) && fresh(copy.fields) && copy.Valid()
      ensures copy.fields[..] == fields[..]
    {
      copy := new Board.Empty();
      forall i | 0 <= i < 9 {
        copy.fields[i] := fields[i];
      }
    }
  }

  datatype TicTacToeState = TicTacToeState(board: Board, currentPlayer: Symbol)

  datatype TicTacToeResult = Victory(winner: Symbol) | Tie

  /** What a player is shown: the fields and whose move it is. */
  datatype TicTacToeView = TicTacToeView(board: seq<Field>, currentPlayer: Symbol)

  datatype ProgressReport = Finished(result: TicTacToeResult) | InProgress(view: TicTacToeView)

  /** Over once a line is won (Victory) or, failing that, once the board is
      full (Tie); otherwise in progress, showing the board and the player to move. */
  function Progress(state: TicTacToeState): (r: ProgressReport)
    reads state.board, state.board.fields
    requires state.board.Valid()
    ensures forall s :: r == Finished(Victory(s)) ==> exists m :: 0 <= m < |Lines| && state.board.LineWonBy(m, s)
    ensures r == Finished(Tie) ==>
      && (forall m, s :: 0 <= m < |Lines| ==> !state.board.LineWonBy(m, s))
      && (forall j :: 0 <= j < 9 ==> state.board.fields[j].Some?)
    ensures r.InProgress? <==>
      && (forall m, s :: 0 <= m < |Lines| ==> !state.board.LineWonBy(m, s))
      && (exists j :: 0 <= j < 9 && state.board.fields[j].None?)
    ensures r.InProgress? ==> r.view == TicTacToeView(state.board.fields[..], state.currentPlayer)
  {
    match state.board.Winner()
    case Some(winner) => Finished(Victory(winner))
    case None =>
      if state.board.Filled() then Finished(Tie)
      else InProgress(TicTacToeView(state.board.fields[..], state.currentPlayer))
  }

  /** Puts the current player's symbol on a copy of the board and hands the
      move to the other player; a refused placement is passed on and the
      given state is untouched. */
  method MoveReducer(state: TicTacToeState, mv: u8) returns (r: MoveResult<TicTacToeState>)
    requires state.board.Valid()
    ensures r.Moved? <==> mv < 9 && state.board.fields[mv].None?
    ensures mv >= 9 ==> r == Refused(OutOfBoard)
    ensures mv < 9 && state.board.fields[mv].Some? ==> r == Refused(AlreadyOccupied)
    ensures r.Moved? ==>
      && fresh(r.value.board) && fresh(r.value.board.fields) && r.value.board.Valid()
      && r.value.board.fields[..] == state.board.fields[..][mv as int := Some(state.currentPlayer)]
      && r.value.currentPlayer == Other(state.currentPlayer)
  {
    var board := state.board.Clone();
    var placed := board.Place(mv, state.currentPlayer);
    match placed
    case Refused(e) =>
      r := Refused(e);
    case Moved(_) =>
      r := Moved(TicTacToeState(board, Other(state.currentPlayer)));
  }
}
