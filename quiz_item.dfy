/** One tile of the hidden-picture grid (PlayHiddenPictureQuizItem): the dialog to answer
    the tile's quiz, the success and fail dialogs, the Enter key that closes them, and the
    star display of the quiz's difficulty. The submit delay is one atomic step here. */
module HiddenPictureQuizItem {
  import opened Interfaces

  /** The answer type of short-answer quizzes, the only one that is graded. */
  const ShortAnswerType: string := "단답형"

  const EnterCode: string := "Enter"

  /** The item the success dialog announces: "KEY" or "NONE". */
  datatype Reward = Key | NoReward

  datatype SuccessModalProps = SuccessModalProps(show: bool, reward: Option<Reward>)

  const HiddenSuccessModal := SuccessModalProps(false, None)

  /** A call from the tile into the shared store. The store's handling of these calls is
      not part of this model; the tile's contract is the calls it makes, in order. */
  datatype StoreCall =
    | UpdateQuizListFinished(index: nat)
    | UpdateGroupListScore(groupName: string, score: int)
    | UpdateGroupListItem(groupName: string, item: string, count: int)
    | UpdateTurn

  /** The tile's view of the shared `usePlay` store: the fields a tile reads, and the calls
      it has received. `quizList` and `gameInfo` are the fields of usePlay.ts (modelled in
      full by `PlayStore.Play`); `keyList`, `finished` and the `update*` operations are not
      defined in usePlay.ts, so they are inputs here and the calls are only logged. */
  class Store {
    var quizList: seq<Quiz>
    var gameInfo: Option<Game>
    var keyList: seq<int>
    var finished: bool
    var calls: seq<StoreCall>

    constructor (quizList: seq<Quiz>, gameInfo: Option<Game>, keyList: seq<int>, finished: bool)
      ensures this.quizList == quizList && this.gameInfo == gameInfo
      ensures this.keyList == keyList && this.finished == finished && calls == []
    {
      this.quizList := quizList;
      this.gameInfo := gameInfo;
      this.keyList := keyList;
      this.finished := finished;
      calls := [];
    }
  }

  /** `gameInfo?.isTurnPlay`: a missing record reads as off. */
  predicate TurnPlay(gameInfo: Option<Game>) {
    gameInfo.Some? && gameInfo.value.isTurnPlay
  }

  /** `score ?? DEFAULT_SCORE`: an explicit score, zero included, wins over the default. */
  function Points(q: Quiz, defaultScore: int): int {
    match q.score
    case Some(s) => s
    case None => defaultScore
  }

  /** The calls made when the success dialog closes. */
  function SuccessCommits(index: nat, groupName: string, points: int, keyBearing: bool, turnPlay: bool): seq<StoreCall> {
    [UpdateQuizListFinished(index), UpdateGroupListScore(groupName, points)]
    + (if keyBearing then [UpdateGroupListItem(groupName, "KEY", 1)] else [])
    + (if turnPlay then [UpdateTurn] else [])
  }

  /** The calls made when the fail dialog closes. */
  function FailCommits(turnPlay: bool): seq<StoreCall> {
    if turnPlay then [UpdateTurn] else []
  }

  /** The number of keys the calls grant. */
  function CountKeyGrants(calls: seq<StoreCall>): int {
    if calls == [] then 0
    else (if calls[0].UpdateGroupListItem? && calls[0].item == "KEY" then calls[0].count else 0)
         + CountKeyGrants(calls[1..])
  }

  lemma {:induction false} CountKeyGrantsConcat(a: seq<StoreCall>, b: seq<StoreCall>)
    ensures CountKeyGrants(a + b) == CountKeyGrants(a) + CountKeyGrants(b)
  {
    if a == [] {
      assert a + b == b;
    } else {
      assert (a + b)[0] == a[0];
      assert (a + b)[1..] == a[1..] + b;
      CountKeyGrantsConcat(a[1..], b);
    }
  }

  /** A correct answer commits in this order: the tile is finished first, then the score
      goes to the group, then exactly one key if the tile bears one, and the turn advances
      last and only in turn play. */
  lemma SuccessCommitOrder(index: nat, groupName: string, points: int, keyBearing: bool, turnPlay: bool)
    ensures var c := SuccessCommits(index, groupName, points, keyBearing, turnPlay);
      && |c| == 2 + (if keyBearing then 1 else 0) + (if turnPlay then 1 else 0)
      && c[0] == UpdateQuizListFinished(index)
      && c[1] == UpdateGroupListScore(groupName, points)
      && CountKeyGrants(c) == (if keyBearing then 1 else 0)
      && (UpdateTurn in c <==> turnPlay)
      && (turnPlay ==> c[|c| - 1] == UpdateTurn)
      && (keyBearing ==> c[2] == UpdateGroupListItem(groupName, "KEY", 1))
  {
    var c := SuccessCommits(index, groupName, points, keyBearing, turnPlay);
    var head := [UpdateQuizListFinished(index), UpdateGroupListScore(groupName, points)];
    var key := if keyBearing then [UpdateGroupListItem(groupName, "KEY", 1)] else [];
    var turn := if turnPlay then [UpdateTurn] else [];
    CountKeyGrantsConcat(head, key);
    CountKeyGrantsConcat(head + key, turn);
  }

  /** A wrong answer commits no finish, no score and no key: at most the turn advances. */
  lemma FailCommitsOnlyTurn(turnPlay: bool)
    ensures forall call :: call in FailCommits(turnPlay) ==> call == UpdateTurn
    ensures UpdateTurn in FailCommits(turnPlay) <==> turnPlay
    ensures CountKeyGrants(FailCommits(turnPlay)) == 0
  {
  }

  /** The star display of a difficulty: `full` whole stars and `half` half stars. */
  datatype Stars = Stars(full: nat, half: nat)

  /** JavaScript's `%`, whose result takes the sign of the dividend. */
  function JsRemainder(a: int, b: int): int
    requires b > 0
  {
    if a >= 0 then a % b else -((-a) % b)
  }

  /** `Math.floor(d / 2)` whole stars and `d % 2` half stars; `None` when either count is
      negative, where `Array(n)` throws a RangeError. */
  function StarDisplay(difficulty: int): (r: Option<Stars>)
    ensures r.Some? <==> difficulty >= 0
    ensures r.Some? ==> 2 * r.value.full + r.value.half == difficulty && r.value.half <= 1
  {
    var full := difficulty / 2;
    var half := JsRemainder(difficulty, 2);
    if full < 0 || half < 0 then None else Some(Stars(full, half))
  }

  /** Every display with at most one half star is the display of exactly one difficulty. */
  lemma StarDisplayInverse(s: Stars)
    requires s.half <= 1
    ensures StarDisplay(2 * s.full + s.half) == Some(s)
  {
  }

  class QuizItem {
    const index: nat
    const store: Store
    /** CONST.DEFAULT_SCORE; the constants module is not part of this model. */
    const defaultScore: int

    var show: bool
    var successModal: SuccessModalProps
    var showFailModal: bool
    var groupName: string

    ghost predicate Valid()
      reads this, store
    {
      index < |store.quizList|
    }

    /** `quizList[props.index]`. */
    function QuizInfo(): Quiz
      reads this, store
      requires Valid()
    {
      store.quizList[index]
    }

    constructor (index: nat, store: Store, defaultScore: int)
      requires index < |store.quizList|
      ensures Valid()
      ensures this.index == index && this.store == store && this.defaultScore == defaultScore
      ensures !show && successModal == HiddenSuccessModal && !showFailModal && groupName == ""
    {
      this.index := index;
      this.store := store;
      this.defaultScore := defaultScore;
      show := false;
      successModal := HiddenSuccessModal;
      showFailModal := false;
      groupName := "";
    }

    /** `setShow(v)` followed by the effect on `show`: when the dialog opens, the captured
        group name is cleared. */
    method SetShow(v: bool)
      modifies this`show, this`groupName
      ensures show == v
      ensures groupName == if v && !old(show) then "" else old(groupName)
    {
      if show != v {
        show := v;
        if show {
          groupName := "";
        }
      }
    }

    /** A click opens the quiz dialog unless the tile's quiz is finished. The game-wide
        finished flag is not consulted. */
    method OnClick()
      requires Valid()
      modifies this`show, this`groupName
      ensures Valid()
      ensures show <==> old(show) || !QuizInfo().finished
      ensures groupName == if show && !old(show) then "" else old(groupName)
    {
      if !QuizInfo().finished {
        SetShow(true);
      }
    }

    /** The dialog's submit: the group is recorded, the dialog closes, and a short-answer
        quiz opens the success dialog on an exact match and the fail dialog otherwise; other
        answer types open neither. */
    method OnSubmit(submittedGroup: string, answer: string)
      requires Valid()
      modifies this`show, this`groupName, this`successModal, this`showFailModal
      ensures Valid()
      ensures !show && groupName == submittedGroup
      ensures var graded := QuizInfo().answerType == ShortAnswerType;
        var correct := QuizInfo().shortAnswer == Some(answer);
        && successModal == (if graded && correct
                            then SuccessModalProps(true, Some(if index as int in store.keyList then Key else NoReward))
                            else old(successModal))
        && showFailModal == (old(showFailModal) || (graded && !correct))
    {
      groupName := submittedGroup;
      SetShow(false);
      var quizInfo := QuizInfo();
      if quizInfo.answerType == ShortAnswerType {
        if quizInfo.shortAnswer == Some(answer) {
          successModal := SuccessModalProps(true, Some(if index as int in store.keyList then Key else NoReward));
        } else {
          showFailModal := true;
        }
      }
    }

    /** Closing the success dialog commits the tile's result to the store and hides it. */
    method CloseSuccessModal()
      requires Valid()
      modifies store`calls, this`successModal
      ensures Valid()
      ensures store.calls == old(store.calls)
        + SuccessCommits(index, groupName, Points(QuizInfo(), defaultScore),
                         index as int in store.keyList, TurnPlay(store.gameInfo))
      ensures successModal == HiddenSuccessModal
    {
      var quizInfo := QuizInfo();
      store.calls := store.calls + [UpdateQuizListFinished(index)];
      store.calls := store.calls + [UpdateGroupListScore(groupName, Points(quizInfo, defaultScore))];
      if index as int in store.keyList {
        store.calls := store.calls + [UpdateGroupListItem(groupName, "KEY", 1)];
      }
      if TurnPlay(store.gameInfo) {
        store.calls := store.calls + [UpdateTurn];
      }
      successModal := HiddenSuccessModal;
    }

    /** Closing the fail dialog advances the turn in turn play and hides it. */
    method CloseFailModal()
      modifies store`calls, this`showFailModal
      ensures store.calls == old(store.calls) + FailCommits(TurnPlay(store.gameInfo))
      ensures !showFailModal
    {
      if TurnPlay(store.gameInfo) {
        store.calls := store.calls + [UpdateTurn];
      }
      showFailModal := false;
    }

    /** The key handler: Enter closes each dialog that was shown when the key arrived,
        success first; any other key does nothing. */
    method OnKeyDown(code: string)
      requires Valid()
      modifies store`calls, this`successModal, this`showFailModal
      ensures Valid()
      ensures code != EnterCode ==>
        store.calls == old(store.calls) && successModal == old(successModal) && showFailModal == old(showFailModal)
      ensures code == EnterCode ==>
        && store.calls == old(store.calls)
             + (if old(successModal.show)
                then SuccessCommits(index, groupName, Points(QuizInfo(), defaultScore),
                                    index as int in store.keyList, TurnPlay(store.gameInfo))
                else [])
             + (if old(showFailModal) then FailCommits(TurnPlay(store.gameInfo)) else [])
        && successModal == (if old(successModal.show) then HiddenSuccessModal else old(successModal))
        && !showFailModal
    {
      if code == EnterCode {
        var successShown, failShown := successModal.show, showFailModal;
        if successShown {
          CloseSuccessModal();
        }
        if failShown {
          CloseFailModal();
        }
      }
    }
  }

  /** A wrong answer leaves the tile open to another attempt: after the fail dialog is
      closed, the quiz is still unfinished and a click opens the dialog again. */
  method WrongAnswerThenRetry(tile: QuizItem, group: string, answer: string)
    requires tile.Valid() && !tile.QuizInfo().finished
    requires tile.QuizInfo().answerType == ShortAnswerType
    requires tile.QuizInfo().shortAnswer != Some(answer)
    requires !tile.show && !tile.successModal.show && !tile.showFailModal
    modifies tile, tile.store`calls
  {
    var before := tile.store.calls;
    tile.OnClick();
    assert tile.show && tile.groupName == "";
    tile.OnSubmit(group, answer);
    assert tile.showFailModal && !tile.successModal.show && tile.groupName == group;
    tile.OnKeyDown(EnterCode);
    assert tile.store.calls == before + FailCommits(TurnPlay(tile.store.gameInfo));
    assert !tile.showFailModal;
    tile.OnClick();
    assert tile.show;
  }
}
