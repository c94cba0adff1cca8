/**
 * The match-creation dialogue (`start_new_game` and the `newgame_*` handlers): a
 * per-user state machine that asks, in this order, whom the game is for, the court id,
 * the date, the time, the game type and a comment, and then inserts the game. Each step
 * checks its own answer and asks again when it does not fit; "Отмена" ends the dialogue
 * at any step and drops what was collected.
 */
module Wizard {
  import opened Wrappers
  import opened Records
  import opened OccupancyEngine
  import opened CallbackData
  import opened Store

  const START_LABEL := "Создать матч 🎾"
  const CANCEL_LABEL := "Отмена"
  const FOR_SELF_LABEL := "Создаю игру для себя"
  const FOR_OTHERS_LABEL := "Создаю игру для других"
  const SINGLES_PREFIX := "Одиночка"
  const DOUBLES_PREFIX := "Пары"
  /** The labels of the two game-type buttons. */
  const SINGLES_BUTTON := "Одиночка (2 игрока)"
  const DOUBLES_BUTTON := "Пары (4 игрока)"
  /** The answer that means "no comment". */
  const NO_COMMENT := "-"
  /** Fixed in this version of the dialogue. */
  const VISIBILITY := "public"

  /**
   * The `NewGame` states the handlers enter; `Idle` is the state after `state.finish()`.
   * (`NewGame` also declares `rating`, `players_count` and `confirm`, which no handler
   * ever enters.)
   */
  datatype Step = Idle | AskMode | AskCourt | AskDate | AskTime | AskGameType | AskComment

  function Rank(step: Step): nat {
    match step
    case Idle => 0
    case AskMode => 1
    case AskCourt => 2
    case AskDate => 3
    case AskTime => 4
    case AskGameType => 5
    case AskComment => 6
  }

  /** The step that follows a successful answer. */
  function NextStep(step: Step): Step {
    match step
    case Idle => AskMode
    case AskMode => AskCourt
    case AskCourt => AskDate
    case AskDate => AskTime
    case AskTime => AskGameType
    case AskGameType => AskComment
    case AskComment => Idle
  }

  /** The answers collected so far with `state.update_data`. */
  datatype Draft = Draft(
    mode: Option<CreatorMode>,
    court: Option<CourtId>,
    date: Option<Date>,
    time: Option<Time>,
    gameType: Option<GameType>,
    playersCount: Option<int>)

  const EMPTY := Draft(None, None, None, None, None, None)

  datatype Session = Session(step: Step, draft: Draft)

  /** The state after one message, and the game inserted on the way, if any. */
  datatype Reply = Reply(next: Session, created: Option<Game>)

  function PlayersFor(gameType: GameType): int {
    if gameType == Singles then 2 else 4
  }

  /**
   * A session holds exactly the answers of the steps before its current one, and the
   * number of players agrees with the game type.
   */
  ghost predicate WfSession(s: Session) {
    var k := Rank(s.step);
    && (s.draft.mode.Some? <==> k >= 2)
    && (s.draft.court.Some? <==> k >= 3)
    && (s.draft.date.Some? <==> k >= 4)
    && (s.draft.time.Some? <==> k >= 5)
    && (s.draft.gameType.Some? <==> k >= 6)
    && (s.draft.playersCount.Some? <==> k >= 6)
    && (s.draft.gameType.Some? ==> s.draft.playersCount == Some(PlayersFor(s.draft.gameType.value)))
  }

  /** The two creator-mode buttons. */
  function ModeOfLabel(text: string): (r: Option<CreatorMode>)
    ensures text == FOR_SELF_LABEL ==> r == Some(Self)
    ensures text == FOR_OTHERS_LABEL ==> r == Some(Others)
    ensures r.Some? ==> text == FOR_SELF_LABEL || text == FOR_OTHERS_LABEL
  {
    if text == FOR_SELF_LABEL then Some(Self)
    else if text == FOR_OTHERS_LABEL then Some(Others)
    else None
  }

  /**
   * The game-type answer: text starting with "Одиночка" is singles for 2 players, text
   * starting with "Пары" doubles for 4; anything else is not understood.
   */
  function GameTypeOfLabel(text: string): (r: Option<(GameType, int)>)
    ensures r.Some? <==> StartsWith(text, SINGLES_PREFIX) || StartsWith(text, DOUBLES_PREFIX)
    ensures r.Some? ==> r.value.1 == PlayersFor(r.value.0) && (r.value.1 == 2 || r.value.1 == 4)
    ensures StartsWith(text, SINGLES_PREFIX) ==> r == Some((Singles, 2))
    ensures StartsWith(text, DOUBLES_PREFIX) ==> r == Some((Doubles, 4))
  {
    assert StartsWith(text, DOUBLES_PREFIX) ==> !StartsWith(text, SINGLES_PREFIX) by {
      if StartsWith(text, DOUBLES_PREFIX) {
        assert text[0] == DOUBLES_PREFIX[0];
      }
    }
    if StartsWith(text, SINGLES_PREFIX) then Some((Singles, 2))
    else if StartsWith(text, DOUBLES_PREFIX) then Some((Doubles, 4))
    else None
  }

  /** The comment answer: "-" means no comment. */
  function CommentOf(text: string): (r: Option<string>)
    ensures r.None? <==> text == NO_COMMENT
    ensures r.Some? ==> r.value == text
  {
    if text == NO_COMMENT then None else Some(text)
  }

  const CANCELLED := Reply(Session(Idle, EMPTY), None)

  /** The arguments `newgame_comment` passes to `create_game`. */
  function CommentGame(d: Draft, text: string, sender: UserId): Game
    requires d.court.Some? && d.date.Some? && d.time.Some? && d.gameType.Some? && d.playersCount.Some?
  {
    Game(sender, d.court.value, d.date.value, d.time.value, d.gameType.value,
         None, None, d.playersCount.value, CommentOf(text), false, VISIBILITY, d.mode.GetOr(Self))
  }

  /**
   * What one message from `sender` does to their session. Parsing a date ("%d.%m.%Y")
   * and a time ("%H:%M") is left to the two parser parameters.
   */
  function Advance(s: Session, text: string, sender: UserId,
                   parseDate: string -> Option<Date>, parseTime: string -> Option<Time>): (r: Reply)
    requires WfSession(s)
    ensures WfSession(r.next)
    ensures r.created.Some? ==>
      var game := r.created.value;
      && game.creator == sender
      && Storable(game)
      && (game.playersCount == 2 || game.playersCount == 4)
      && CreatorSlots(game.mode) < game.playersCount
  {
    var d := s.draft;
    match s.step
    case Idle =>
      if text == START_LABEL then Reply(Session(AskMode, d), None) else Reply(s, None)
    case AskMode =>
      if text == CANCEL_LABEL then CANCELLED
      else (match ModeOfLabel(text)
        case None => Reply(s, None)
        case Some(mode) => Reply(Session(AskCourt, d.(mode := Some(mode))), None))
    case AskCourt =>
      if text == CANCEL_LABEL then CANCELLED
      else if !AllDigits(text) then Reply(s, None)
      else Reply(Session(AskDate, d.(court := Some(DigitsValue(text)))), None)
    case AskDate =>
      if text == CANCEL_LABEL then CANCELLED
      else (match parseDate(text)
        case None => Reply(s, None)
        case Some(date) => Reply(Session(AskTime, d.(date := Some(date))), None))
    case AskTime =>
      if text == CANCEL_LABEL then CANCELLED
      else (match parseTime(text)
        case None => Reply(s, None)
        case Some(time) => Reply(Session(AskGameType, d.(time := Some(time))), None))
    case AskGameType =>
      if text == CANCEL_LABEL then CANCELLED
      else (match GameTypeOfLabel(text)
        case None => Reply(s, None)
        case Some((gameType, players)) =>
          Reply(Session(AskComment, d.(gameType := Some(gameType), playersCount := Some(players))), None))
    case AskComment =>
      if text == CANCEL_LABEL then CANCELLED
      else
        var game := CommentGame(d, text, sender);
        // An id outside SQLite's range raises inside `create_game`: nothing is inserted
        // and the handler stops before `state.finish()`.
        if Storable(game) then Reply(Session(Idle, EMPTY), Some(game)) else Reply(s, None)
  }

  /**
   * A message either leaves the session as it was (a re-prompt, or a message that is
   * not for the dialogue), moves it to the next step in the fixed order, or ends it with
   * nothing collected; only the comment step ends it by creating a game, and it does
   * so unless the insert fails.
   */
  lemma StepsInOrder(s: Session, text: string, sender: UserId,
                     parseDate: string -> Option<Date>, parseTime: string -> Option<Time>)
    requires WfSession(s)
    ensures var r := Advance(s, text, sender, parseDate, parseTime);
      || (r.next == s && r.created.None?)
      || (r.next.step == NextStep(s.step) && r.next.step != Idle && r.created.None?)
      || (r.next == Session(Idle, EMPTY) && s.step != Idle && (r.created.None? <==> text == CANCEL_LABEL))
    ensures var r := Advance(s, text, sender, parseDate, parseTime);
      r.created.Some? <==>
        s.step == AskComment && text != CANCEL_LABEL && Storable(CommentGame(s.draft, text, sender))
  {
  }

  /** "Отмена" at any step ends the dialogue, drops the answers and creates nothing. */
  lemma CancelDiscards(s: Session, sender: UserId,
                       parseDate: string -> Option<Date>, parseTime: string -> Option<Time>)
    requires WfSession(s) && s.step != Idle
    ensures Advance(s, CANCEL_LABEL, sender, parseDate, parseTime) == Reply(Session(Idle, EMPTY), None)
  {
  }

  /** The court step accepts only a numeral, and then records its value. */
  lemma CourtMustBeNumber(s: Session, text: string, sender: UserId,
                          parseDate: string -> Option<Date>, parseTime: string -> Option<Time>)
    requires WfSession(s) && s.step == AskCourt && text != CANCEL_LABEL
    ensures var r := Advance(s, text, sender, parseDate, parseTime);
      && (!AllDigits(text) ==> r == Reply(s, None))
      && (AllDigits(text) ==> r.next == Session(AskDate, s.draft.(court := Some(DigitsValue(text)))))
  {
  }

  /** The two game-type buttons give singles for 2 and doubles for 4. */
  lemma GameTypeButtons()
    ensures GameTypeOfLabel(SINGLES_BUTTON) == Some((Singles, 2))
    ensures GameTypeOfLabel(DOUBLES_BUTTON) == Some((Doubles, 4))
  {
    assert StartsWith(SINGLES_BUTTON, SINGLES_PREFIX);
    assert !StartsWith(DOUBLES_BUTTON, SINGLES_PREFIX) by {
      assert DOUBLES_BUTTON[0] != SINGLES_PREFIX[0];
    }
    assert StartsWith(DOUBLES_BUTTON, DOUBLES_PREFIX);
  }

  /**
   * The comment step inserts the game built from the collected answers: rating range
   * absent, court not booked, visibility "public", and no comment when the answer is "-".
   * When the creator or court id is outside SQLite's integer range the insert raises:
   * no game, and the session stays at the comment step with its answers.
   */
  lemma CommentStepCreates(s: Session, text: string, sender: UserId,
                           parseDate: string -> Option<Date>, parseTime: string -> Option<Time>)
    requires WfSession(s) && s.step == AskComment && text != CANCEL_LABEL
    ensures var d := s.draft;
            var game := Game(sender, d.court.value, d.date.value, d.time.value, d.gameType.value,
                             None, None, d.playersCount.value,
                             if text == NO_COMMENT then None else Some(text),
                             false, VISIBILITY, d.mode.value);
            Advance(s, text, sender, parseDate, parseTime) ==
              if FitsInteger(sender) && FitsInteger(d.court.value)
              then Reply(Session(Idle, EMPTY), Some(game))
              else Reply(s, None)
  {
  }

  /** A sequence of messages from one user: the final session and the games inserted. */
  function Run(s: Session, texts: seq<string>, sender: UserId,
               parseDate: string -> Option<Date>, parseTime: string -> Option<Time>): (r: (Session, seq<Game>))
    requires WfSession(s)
    ensures WfSession(r.0)
    decreases |texts|
  {
    if |texts| == 0 then (s, [])
    else
      var first := Advance(s, texts[0], sender, parseDate, parseTime);
      var rest := Run(first.next, texts[1..], sender, parseDate, parseTime);
      (rest.0, (if first.created.Some? then [first.created.value] else []) + rest.1)
  }

  /**
   * How many dialogues the messages open: the "create a game" button pressed while no
   * dialogue is running (`start_new_game` only handles it then; inside a dialogue it is
   * an answer like any other).
   */
  function Opened(s: Session, texts: seq<string>, sender: UserId,
                  parseDate: string -> Option<Date>, parseTime: string -> Option<Time>): nat
    requires WfSession(s)
    decreases |texts|
  {
    if |texts| == 0 then 0
    else
      (if s.step == Idle && texts[0] == START_LABEL then 1 else 0) +
      Opened(Advance(s, texts[0], sender, parseDate, parseTime).next, texts[1..], sender, parseDate, parseTime)
  }

  /**
   * `create_game` succeeds at most once per dialogue: over any sequence of messages, no
   * more games are inserted than dialogues were running at the start or opened.
   */
  lemma {:induction false} AtMostOneGamePerDialogue(s: Session, texts: seq<string>, sender: UserId,
                                                    parseDate: string -> Option<Date>,
                                                    parseTime: string -> Option<Time>)
    requires WfSession(s)
    ensures |Run(s, texts, sender, parseDate, parseTime).1| <=
            (if s.step == Idle then 0 else 1) + Opened(s, texts, sender, parseDate, parseTime)
    decreases |texts|
  {
    if |texts| > 0 {
      var first := Advance(s, texts[0], sender, parseDate, parseTime);
      AtMostOneGamePerDialogue(first.next, texts[1..], sender, parseDate, parseTime);
      StepsInOrder(s, texts[0], sender, parseDate, parseTime);
    }
  }

  /**
   * A dialogue answered correctly at every step inserts exactly one game, built from
   * those answers, and ends idle; unless an id is outside SQLite's integer range, in
   * which case nothing is inserted and it waits at the comment step with every answer.
   */
  lemma {:induction false} CompleteDialogue(sender: UserId, modeText: string, courtText: string,
                                            dateText: string, timeText: string, typeText: string,
                                            commentText: string,
                                            parseDate: string -> Option<Date>,
                                            parseTime: string -> Option<Time>)
    requires ModeOfLabel(modeText).Some?
    requires AllDigits(courtText)
    requires dateText != CANCEL_LABEL && parseDate(dateText).Some?
    requires timeText != CANCEL_LABEL && parseTime(timeText).Some?
    requires GameTypeOfLabel(typeText).Some?
    requires commentText != CANCEL_LABEL
    ensures var texts := [START_LABEL, modeText, courtText, dateText, timeText, typeText, commentText];
            var kind := GameTypeOfLabel(typeText).value;
            var game := Game(sender, DigitsValue(courtText), parseDate(dateText).value,
                             parseTime(timeText).value, kind.0, None, None, kind.1,
                             CommentOf(commentText), false, VISIBILITY, ModeOfLabel(modeText).value);
            var answers := Draft(ModeOfLabel(modeText), Some(DigitsValue(courtText)), parseDate(dateText),
                                 parseTime(timeText), Some(kind.0), Some(kind.1));
            Run(Session(Idle, EMPTY), texts, sender, parseDate, parseTime) ==
              if Storable(game) then (Session(Idle, EMPTY), [game])
              else (Session(AskComment, answers), [])
  {
    var texts := [START_LABEL, modeText, courtText, dateText, timeText, typeText, commentText];
    assert courtText != CANCEL_LABEL by {
      assert !IsDigit(CANCEL_LABEL[0]);
    }
    assert typeText != CANCEL_LABEL by {
      assert !StartsWith(CANCEL_LABEL, SINGLES_PREFIX) by { assert CANCEL_LABEL[1] != SINGLES_PREFIX[1]; }
      assert !StartsWith(CANCEL_LABEL, DOUBLES_PREFIX) by { assert CANCEL_LABEL[0] != DOUBLES_PREFIX[0]; }
    }
    var s0 := Session(Idle, EMPTY);
    var s1 := Advance(s0, texts[0], sender, parseDate, parseTime).next;
    var s2 := Advance(s1, texts[1], sender, parseDate, parseTime).next;
    var s3 := Advance(s2, texts[2], sender, parseDate, parseTime).next;
    var s4 := Advance(s3, texts[3], sender, parseDate, parseTime).next;
    var s5 := Advance(s4, texts[4], sender, parseDate, parseTime).next;
    var s6 := Advance(s5, texts[5], sender, parseDate, parseTime).next;
    assert s6.step == AskComment;
    var last := Advance(s6, commentText, sender, parseDate, parseTime);
    var result := if last.created.Some? then (Session(Idle, EMPTY), [last.created.value]) else (s6, []);
    assert Run(s6, texts[6..], sender, parseDate, parseTime) == result by {
      assert texts[6..] == [commentText] && texts[6..][1..] == [];
      if last.created.Some? {
        assert [last.created.value] + [] == result.1;
      }
    }
    assert Run(s5, texts[5..], sender, parseDate, parseTime) == result by {
      assert texts[5..][0] == typeText && texts[5..][1..] == texts[6..];
      assert Advance(s5, typeText, sender, parseDate, parseTime).created.None?;
      assert [] + result.1 == result.1;
    }
    assert Run(s4, texts[4..], sender, parseDate, parseTime) == result by {
      assert texts[4..][1..] == texts[5..];
    }
    assert Run(s3, texts[3..], sender, parseDate, parseTime) == result by {
      assert texts[3..][1..] == texts[4..];
    }
    assert Run(s2, texts[2..], sender, parseDate, parseTime) == result by {
      assert texts[2..][1..] == texts[3..];
    }
    assert Run(s1, texts[1..], sender, parseDate, parseTime) == result by {
      assert texts[1..][1..] == texts[2..];
    }
  }

  /** One user's dialogue, held between messages. */
  class Conversation {
    /** The user whose dialogue this is; `create_game` records them as the creator. */
    const owner: UserId
    var step: Step
    var draft: Draft

    ghost predicate Valid()
      reads this
    {
      WfSession(Session(step, draft))
    }

    constructor (owner: UserId)
      ensures this.owner == owner && step == Idle && draft == EMPTY && Valid()
    {
      this.owner := owner;
      step := Idle;
      draft := EMPTY;
    }

    /** `state.finish()`: leave the dialogue and drop the collected answers. */
    method Finish()
      modifies this
      ensures Valid() && step == Idle && draft == EMPTY
    {
      step, draft := Idle, EMPTY;
    }

    /**
     * The handler for one message of the owner. It changes the session as `Advance`
     * says and, at the comment step, inserts the game into `ledger` and returns its id.
     */
    method HandleMessage(text: string, ledger: Ledger,
                         parseDate: string -> Option<Date>, parseTime: string -> Option<Time>)
      returns (created: Option<GameId>)
      requires Valid() && ledger.Valid()
      modifies this, ledger
      ensures Valid() && ledger.Valid()
      ensures var r := Advance(old(Session(step, draft)), text, owner, parseDate, parseTime);
        && Session(step, draft) == r.next
        && ledger.apps == old(ledger.apps)
        && (r.created.None? ==> created.None? && ledger.games == old(ledger.games))
        && (r.created.Some? ==>
              ledger.games == old(ledger.games) + [r.created.value] && created == Some(|ledger.games|))
    {
      created := None;
      match step {
        case Idle =>
          if text == START_LABEL {
            step := AskMode;
          }
        case AskMode =>
          if text == CANCEL_LABEL {
            Finish();
          } else if text == FOR_SELF_LABEL {
            draft := draft.(mode := Some(Self));
            step := AskCourt;
          } else if text == FOR_OTHERS_LABEL {
            draft := draft.(mode := Some(Others));
            step := AskCourt;
          }
        case AskCourt =>
          if text == CANCEL_LABEL {
            Finish();
          } else if AllDigits(text) {
            draft := draft.(court := Some(DigitsValue(text)));
            step := AskDate;
          }
        case AskDate =>
          if text == CANCEL_LABEL {
            Finish();
          } else {
            var date := parseDate(text);
            if date.Some? {
              draft := draft.(date := date);
              step := AskTime;
            }
          }
        case AskTime =>
          if text == CANCEL_LABEL {
            Finish();
          } else {
            var time := parseTime(text);
            if time.Some? {
              draft := draft.(time := time);
              step := AskGameType;
            }
          }
        case AskGameType =>
          if text == CANCEL_LABEL {
            Finish();
          } else if StartsWith(text, SINGLES_PREFIX) {
            draft := draft.(gameType := Some(Singles), playersCount := Some(2));
            step := AskComment;
          } else if StartsWith(text, DOUBLES_PREFIX) {
            draft := draft.(gameType := Some(Doubles), playersCount := Some(4));
            step := AskComment;
          }
        case AskComment =>
          if text == CANCEL_LABEL {
            Finish();
          } else {
            var comment := if text == NO_COMMENT then None else Some(text);
            var game := Game(owner, draft.court.value, draft.date.value, draft.time.value,
                             draft.gameType.value, None, None, draft.playersCount.value, comment,
                             false, VISIBILITY, draft.mode.GetOr(Self));
            created := ledger.CreateGame(game);
            if created.Some? {
              step, draft := Idle, EMPTY;
            }
          }
      }
    }
  }
}
