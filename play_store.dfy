/** The play store (usePlay): the game configuration, the started flag and the tile list,
    with the operations that write them. The remote reads are parameters: a snapshot that
    exists is `Some`, a missing record or a failed read is `None`. */
module PlayStore {
  import opened Interfaces
  import opened QuizAssembly

  /** The keys of the game record. */
  datatype GameField =
    | Subject | YearStart | YearEnd | DifficultyStart | DifficultyEnd
    | SizeX | SizeY | IsTurnPlay | UserId

  /** A value stored under one key. */
  datatype FieldValue = Text(text: string) | Number(number: int) | Flag(flag: bool)

  /** Reads one field of the record. */
  function Get(g: Game, key: GameField): FieldValue {
    match key
    case Subject => Text(g.subject)
    case YearStart => Number(g.yearStart)
    case YearEnd => Number(g.yearEnd)
    case DifficultyStart => Number(g.difficultyStart)
    case DifficultyEnd => Number(g.difficultyEnd)
    case SizeX => Number(g.sizeX)
    case SizeY => Number(g.sizeY)
    case IsTurnPlay => Flag(g.isTurnPlay)
    case UserId => Text(g.userId)
  }

  /** The value has the type the record declares for the key. */
  predicate Fits(key: GameField, value: FieldValue) {
    match key
    case Subject | UserId => value.Text?
    case IsTurnPlay => value.Flag?
    case _ => value.Number?
  }

  /** `{ ...g, [key]: value }`: the record with one field replaced. */
  function With(g: Game, key: GameField, value: FieldValue): (r: Game)
    requires Fits(key, value)
    ensures Get(r, key) == value
    ensures forall other :: other != key ==> Get(r, other) == Get(g, other)
  {
    match key
    case Subject => g.(subject := value.text)
    case YearStart => g.(yearStart := value.number)
    case YearEnd => g.(yearEnd := value.number)
    case DifficultyStart => g.(difficultyStart := value.number)
    case DifficultyEnd => g.(difficultyEnd := value.number)
    case SizeX => g.(sizeX := value.number)
    case SizeY => g.(sizeY := value.number)
    case IsTurnPlay => g.(isTurnPlay := value.flag)
    case UserId => g.(userId := value.text)
  }

  /** The fields read by Get determine the record, so With's two postconditions determine
      its result. */
  lemma GetDeterminesGame(a: Game, b: Game)
    requires forall key :: Get(a, key) == Get(b, key)
    ensures a == b
  {
    assert Get(a, Subject) == Get(b, Subject);
    assert Get(a, YearStart) == Get(b, YearStart);
    assert Get(a, YearEnd) == Get(b, YearEnd);
    assert Get(a, DifficultyStart) == Get(b, DifficultyStart);
    assert Get(a, DifficultyEnd) == Get(b, DifficultyEnd);
    assert Get(a, SizeX) == Get(b, SizeX);
    assert Get(a, SizeY) == Get(b, SizeY);
    assert Get(a, IsTurnPlay) == Get(b, IsTurnPlay);
    assert Get(a, UserId) == Get(b, UserId);
  }

  /** Replacing a field by the value it already holds leaves the record as it was. */
  lemma WithOwnValue(g: Game, key: GameField)
    ensures Fits(key, Get(g, key)) && With(g, key, Get(g, key)) == g
  {
    GetDeterminesGame(With(g, key, Get(g, key)), g);
  }

  class Play {
    var startGame: bool
    var gameInfo: Option<Game>
    var quizList: seq<Quiz>

    constructor ()
      ensures !startGame && gameInfo == None && quizList == []
    {
      startGame := false;
      gameInfo := None;
      quizList := [];
    }

    /** getGameInfo once the read of game/all/<id> has settled. */
    method GetGameInfo(snapshot: Option<Game>)
      modifies this`gameInfo
      ensures gameInfo == if snapshot.Some? then snapshot else old(gameInfo)
    {
      if snapshot.Some? {
        gameInfo := snapshot;
      }
    }

    /** setGameInfo: replaces the one named field of the loaded record. */
    method SetGameInfo(key: GameField, value: FieldValue)
      requires gameInfo.Some? && Fits(key, value)
      modifies this`gameInfo
      ensures gameInfo.Some?
      ensures Get(gameInfo.value, key) == value
      ensures forall other :: other != key ==> Get(gameInfo.value, other) == Get(old(gameInfo).value, other)
    {
      gameInfo := Some(With(gameInfo.value, key, value));
    }

    /** getQuizList once the read of quiz/<userId> has settled. With no game record loaded
        every bound of the range filter is `Number(undefined)`, which is NaN, so every
        comparison is false and the range filter keeps nothing; the game starts with no
        tiles. */
    method GetQuizList(snapshot: Option<seq<Quiz>>, pick: nat -> nat) returns (ghost passes: nat)
      requires snapshot.Some? && gameInfo.Some? ==> Terminates(snapshot.value, gameInfo.value)
      modifies this`startGame, this`quizList
      ensures snapshot.None? ==> startGame == old(startGame) && quizList == old(quizList)
      ensures snapshot.Some? ==> startGame
      ensures snapshot.Some? && gameInfo.None? ==> quizList == []
      ensures snapshot.Some? && gameInfo.Some? ==>
        var g, filtered := gameInfo.value, Filtered(snapshot.value, gameInfo.value);
        && IsStopCount(|filtered|, QuizCount(g), passes)
        && multiset(quizList) == multiset(Unshuffled(filtered, QuizCount(g), passes))
        && forall t :: t in quizList ==> t in snapshot.value && InRange(g, t)
    {
      passes := 0;
      if snapshot.Some? {
        if gameInfo.Some? {
          quizList, passes := AssembleQuizList(snapshot.value, gameInfo.value, pick);
        } else {
          quizList := [];
        }
        startGame := true;
      }
    }
  }
}
