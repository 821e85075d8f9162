/** The records the hidden-picture game reads from the remote store (interfaces/Game and
    interfaces/Quiz), restricted to the fields the game logic uses. Numeric fields are
    integers; display-only fields (keyword, image data) are not part of this model. */
module Interfaces {

  /** A value that may be absent (`null`/`undefined` in the source). */
  datatype Option<T> = None | Some(value: T)

  /** One question of the pool. `shortAnswer` is `shortAnswerQuestionInfo?.answer`,
      `score` is the optional explicit score of the quiz. */
  datatype Quiz = Quiz(
    subject: string,
    year: int,
    difficulty: int,
    answerType: string,
    shortAnswer: Option<string>,
    score: Option<int>,
    finished: bool)

  /** The game configuration record. */
  datatype Game = Game(
    subject: string,
    yearStart: int,
    yearEnd: int,
    difficultyStart: int,
    difficultyEnd: int,
    sizeX: int,
    sizeY: int,
    isTurnPlay: bool,
    userId: string)

  function Min(a: int, b: int): int { if a <= b then a else b }

  function Max(a: int, b: int): int { if a <= b then b else a }
}
