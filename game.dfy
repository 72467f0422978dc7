/**
 * The calorie-stair-game component: its state fields, the storage entry it
 * keeps in step with the balance, its event handlers and its two effects.
 * Each handler and each effect is one atomic step.
 */
module Game {
  import opened Options
  import opened Decimal
  import opened Levels

  /** Which entry dialog is open (`modalType`: `null`, `"burn"` or `"eat"`). */
  datatype ModalType = Closed | Burn | Eat

  /** What the user can do to the component, and the message timer firing. */
  datatype UiEvent =
    | ClickBurn                 // the "burned" button opens the dialog in burn mode
    | ClickEat                  // the "eaten" button opens the dialog in eat mode
    | ClickCancel               // the dialog's cancel button
    | ClickConfirm              // the dialog's confirm button
    | KeyDown(key: string)      // a key pressed in the number field
    | Change(text: string)      // the number field's new text
    | MessageTimeout            // a two-second timer set by an earlier confirm fires

  /** The fields a handler can change, taken together. */
  datatype UiState = UiState(
    calories: int, modalType: ModalType, inputValue: string, animationKey: nat, message: string)

  /** The storage key of the balance. */
  const CaloriesKey := "calories"

  /** The message shown after a burn of 1000 or more. */
  const BurnMessage := "💪 우와! 많이 올랐어요!"

  /** The message shown after an eat of 1000 or more. */
  const EatMessage := "😱 꽉 잡아! 많이 떨어졌어!"

  /** The entry size from which a confirm shows a message. */
  const MessageThreshold := 1000

  /** The balance after confirming `value` in `mode`: burning adds, eating subtracts, no mode leaves it. */
  function Applied(mode: ModalType, balance: int, value: int): int {
    match mode
    case Burn => balance + value
    case Eat => balance - value
    case Closed => balance
  }

  /** The message after confirming `value` in `mode`: set on a large entry, otherwise kept as it was. */
  function Feedback(mode: ModalType, value: int, message: string): string {
    if value < MessageThreshold then message
    else match mode
      case Burn => BurnMessage
      case Eat => EatMessage
      case Closed => message
  }

  /** A message appears only for an entry of 1000 or more in an open dialog, and it is the one for that mode. */
  lemma FeedbackOnlyOnLargeEntries(mode: ModalType, value: int, message: string)
    ensures Feedback(mode, value, message) != message ==> mode != Closed && value >= MessageThreshold
    ensures mode == Burn && value >= MessageThreshold ==> Feedback(mode, value, message) == BurnMessage
    ensures mode == Eat && value >= MessageThreshold ==> Feedback(mode, value, message) == EatMessage
  {
  }

  /** A non-negative burn never moves the balance to a lower tier, and a non-negative eat never to a higher one. */
  lemma ConfirmTierDirection(mode: ModalType, balance: int, value: int)
    requires value >= 0
    ensures mode == Burn ==> LevelIndex(balance) <= LevelIndex(Applied(mode, balance, value))
    ensures mode == Eat ==> LevelIndex(Applied(mode, balance, value)) <= LevelIndex(balance)
  {
    if mode == Burn {
      GetLevelMonotone(balance, balance + value);
    } else if mode == Eat {
      GetLevelMonotone(balance - value, balance);
    }
  }

  /** Negative entries are not rejected: a burn of -1 at the top of the underground tier drops to hell. */
  lemma NegativeBurnDescends()
    ensures Applied(Burn, -2999, -1) == -3000
    ensures LevelIndex(Applied(Burn, -2999, -1)) < LevelIndex(-2999)
  {
    TierEdges();
  }

  /** The browser's local storage: string values under string keys; it outlives the component. */
  class Storage {
    var items: map<string, string>

    constructor (items: map<string, string>)
      ensures this.items == items
    {
      this.items := items;
    }
  }

  class CalorieStairGame {
    var calories: int
    var modalType: ModalType
    var inputValue: string
    var isInitialized: bool
    var animationKey: nat
    var message: string
    const storage: Storage

    /** Once loaded, the stored entry is the decimal text of the current balance. */
    predicate Persisted()
      reads this, storage
    {
      isInitialized ==> CaloriesKey in storage.items && storage.items[CaloriesKey] == IntToString(calories)
    }

    /** A stored entry, if there is one, reads as an integer. */
    predicate StoredIsInteger()
      reads this, storage
    {
      CaloriesKey in storage.items ==> ToNumber(storage.items[CaloriesKey]).Some?
    }

    /** The field holds text that `Number` reads as an integer. */
    predicate InputIsInteger()
      reads this
    {
      ToNumber(inputValue).Some?
    }

    /** The handler-visible fields as one value. */
    function Fields(): UiState
      reads this
    {
      UiState(calories, modalType, inputValue, animationKey, message)
    }

    /** The first render: every field at its initial value. The number field's initial 0 reads as "0". */
    constructor (storage: Storage)
      ensures this.storage == storage
      ensures calories == 0 && modalType == Closed && inputValue == "0"
      ensures !isInitialized && animationKey == 0 && message == ""
    {
      this.storage := storage;
      calories := 0;
      modalType := Closed;
      inputValue := "0";
      isInitialized := false;
      animationKey := 0;
      message := "";
    }

    /** The tier shown for the current balance; it always exists, so the render never reads `undefined`. */
    function CurrentLevel(): (level: Level)
      reads this
      ensures Contains(level, calories)
      ensures GetLevel(calories) == Some(level)
    {
      LEVELS[LevelIndex(calories)]
    }

    /** The load effect: restore the stored balance if the key is present, then mark the component initialized. */
    method LoadSaved()
      requires StoredIsInteger()
      modifies this
      ensures CaloriesKey in storage.items ==> calories == ToNumber(storage.items[CaloriesKey]).value
      ensures CaloriesKey !in storage.items ==> calories == old(calories)
      ensures isInitialized
      ensures modalType == old(modalType) && inputValue == old(inputValue)
      ensures animationKey == old(animationKey) && message == old(message)
    {
      if CaloriesKey in storage.items {
        calories := ToNumber(storage.items[CaloriesKey]).value;
      }
      isInitialized := true;
    }

    /** The save effect: once initialized, write the balance under the key; before that, write nothing. */
    method SaveIfInitialized()
      modifies storage
      ensures isInitialized ==> storage.items == old(storage.items)[CaloriesKey := IntToString(calories)]
      ensures !isInitialized ==> storage.items == old(storage.items)
      ensures Persisted()
    {
      if isInitialized {
        storage.items := storage.items[CaloriesKey := IntToString(calories)];
      }
    }

    /**
     * Mounting: both effects run after the first render, the save effect still
     * seeing `isInitialized` false and writing nothing; the load flips
     * `isInitialized`, so the save effect runs again and writes the balance.
     */
    method Mount()
      requires !isInitialized && StoredIsInteger()
      modifies this, storage
      ensures CaloriesKey in old(storage.items) ==> calories == ToNumber(old(storage.items)[CaloriesKey]).value
      ensures CaloriesKey !in old(storage.items) ==> calories == old(calories)
      ensures isInitialized && Persisted()
      ensures storage.items == old(storage.items)[CaloriesKey := IntToString(calories)]
      ensures modalType == old(modalType) && inputValue == old(inputValue)
      ensures animationKey == old(animationKey) && message == old(message)
    {
      LoadSaved();
      // The save effect of the first commit still sees `isInitialized` false and
      // writes nothing; the load changed `isInitialized`, so it runs once more.
      SaveIfInitialized();
    }

    /** The "burned" button: only the dialog mode changes. */
    method OpenBurn()
      modifies this
      ensures modalType == Burn
      ensures calories == old(calories) && inputValue == old(inputValue) && isInitialized == old(isInitialized)
      ensures animationKey == old(animationKey) && message == old(message)
    {
      modalType := Burn;
    }

    /** The "eaten" button: only the dialog mode changes. */
    method OpenEat()
      modifies this
      ensures modalType == Eat
      ensures calories == old(calories) && inputValue == old(inputValue) && isInitialized == old(isInitialized)
      ensures animationKey == old(animationKey) && message == old(message)
    {
      modalType := Eat;
    }

    /** The cancel button: the dialog closes; the typed text is kept, not reset. */
    method Cancel()
      modifies this
      ensures modalType == Closed
      ensures calories == old(calories) && inputValue == old(inputValue) && isInitialized == old(isInitialized)
      ensures animationKey == old(animationKey) && message == old(message)
    {
      modalType := Closed;
    }

    /** Typing in the number field stores its text as it is. */
    method Edit(text: string)
      modifies this
      ensures inputValue == text
      ensures calories == old(calories) && modalType == old(modalType) && isInitialized == old(isInitialized)
      ensures animationKey == old(animationKey) && message == old(message)
    {
      inputValue := text;
    }

    /**
     * Confirming the entry: the balance moves by the value the field reads as
     * (up for burn, down for eat, negative values accepted as they are), a large
     * entry sets its message, and the dialog closes with the field back at 0 and
     * the animation counter one higher.
     */
    method Confirm()
      requires InputIsInteger()
      modifies this
      ensures var value := ToNumber(old(inputValue)).value;
        calories == Applied(old(modalType), old(calories), value) &&
        message == Feedback(old(modalType), value, old(message))
      ensures modalType == Closed && inputValue == "0" && animationKey == old(animationKey) + 1
      ensures isInitialized == old(isInitialized)
    {
      var value := ToNumber(inputValue).value;
      if modalType == Burn {
        calories := calories + value;
        if value >= MessageThreshold {
          message := BurnMessage;
        }
      } else if modalType == Eat {
        calories := calories - value;
        if value >= MessageThreshold {
          message := EatMessage;
        }
      }
      inputValue := "0";
      modalType := Closed;
      animationKey := animationKey + 1;
    }

    /** A key pressed in the number field: Enter confirms, any other key does nothing. */
    method HandleKeyDown(key: string)
      requires key == "Enter" ==> InputIsInteger()
      modifies this
      ensures key == "Enter" ==> (var value := ToNumber(old(inputValue)).value;
        calories == Applied(old(modalType), old(calories), value) &&
        message == Feedback(old(modalType), value, old(message)) &&
        modalType == Closed && inputValue == "0" && animationKey == old(animationKey) + 1)
      ensures key != "Enter" ==> (calories == old(calories) && modalType == old(modalType) &&
        inputValue == old(inputValue) && animationKey == old(animationKey) && message == old(message))
      ensures isInitialized == old(isInitialized)
    {
      if key == "Enter" {
        Confirm();
      }
    }

    /** The timer set by a confirm: it blanks whatever message is showing when it fires. */
    method ClearMessage()
      modifies this
      ensures message == ""
      ensures calories == old(calories) && modalType == old(modalType) && inputValue == old(inputValue)
      ensures isInitialized == old(isInitialized) && animationKey == old(animationKey)
    {
      message := "";
    }

    /** The events whose handler the model covers: a confirm needs a field that reads as an integer. */
    predicate Admissible(ev: UiEvent)
      reads this
    {
      match ev
      case ClickConfirm => InputIsInteger()
      case KeyDown(key) => key == "Enter" ==> InputIsInteger()
      case _ => true
    }

    /**
     * One event: its handler runs, then, as after every render, the save effect
     * runs if the balance or `isInitialized` changed. Whatever the event, the
     * stored entry stays in step with the balance, and nothing is written before
     * the load.
     */
    method Handle(ev: UiEvent)
      requires Admissible(ev)
      modifies this, storage
      ensures ev == ClickBurn ==> Fields() == old(Fields()).(modalType := Burn)
      ensures ev == ClickEat ==> Fields() == old(Fields()).(modalType := Eat)
      ensures ev == ClickCancel ==> Fields() == old(Fields()).(modalType := Closed)
      ensures ev.Change? ==> Fields() == old(Fields()).(inputValue := ev.text)
      ensures ev == MessageTimeout ==> Fields() == old(Fields()).(message := "")
      ensures ev.KeyDown? && ev.key != "Enter" ==> Fields() == old(Fields())
      ensures ev == ClickConfirm || ev == KeyDown("Enter") ==>
        (var value := ToNumber(old(inputValue)).value;
         Fields() == UiState(Applied(old(modalType), old(calories), value), Closed, "0",
                             old(animationKey) + 1, Feedback(old(modalType), value, old(message))))
      ensures old(Persisted()) ==> Persisted()
      ensures isInitialized == old(isInitialized)
      ensures !isInitialized ==> storage.items == old(storage.items)
      ensures isInitialized && calories != old(calories) ==>
        storage.items == old(storage.items)[CaloriesKey := IntToString(calories)]
      ensures storage.items == old(storage.items) ||
        storage.items == old(storage.items)[CaloriesKey := IntToString(calories)]
    {
      var before, wasInitialized := calories, isInitialized;
      match ev {
        case ClickBurn => OpenBurn();
        case ClickEat => OpenEat();
        case ClickCancel => Cancel();
        case ClickConfirm => Confirm();
        case KeyDown(key) => HandleKeyDown(key);
        case Change(text) => Edit(text);
        case MessageTimeout => ClearMessage();
      }
      if calories != before || isInitialized != wasInitialized {
        SaveIfInitialized();
      }
    }
  }

  /**
   * A later session over the same storage restores the balance: the stored
   * text reads back as the same integer, and mounting rewrites what was there.
   */
  method Reload(app: CalorieStairGame) returns (next: CalorieStairGame)
    requires app.isInitialized && app.Persisted()
    modifies app.storage
    ensures fresh(next) && next.storage == app.storage
    ensures next.isInitialized && next.calories == app.calories
    ensures app.storage.items == old(app.storage.items)
  {
    next := new CalorieStairGame(app.storage);
    IntRoundTrip(app.calories);
    next.Mount();
  }

  /** The first session over empty storage starts at 0 and, once mounted, has already stored "0". */
  method FirstRun(storage: Storage) returns (app: CalorieStairGame)
    requires CaloriesKey !in storage.items
    modifies storage
    ensures fresh(app) && app.storage == storage && app.isInitialized
    ensures app.calories == 0 && app.Persisted()
    ensures app.Fields() == UiState(0, Closed, "0", 0, "")
    ensures storage.items == old(storage.items)[CaloriesKey := "0"]
  {
    app := new CalorieStairGame(storage);
    app.Mount();
  }

  /**
   * A first session: open the burn dialog, type 1500 and confirm. The balance
   * is 1500, the burn message shows, and storage holds "1500".
   */
  method BurnFifteenHundred(storage: Storage) returns (app: CalorieStairGame)
    requires CaloriesKey !in storage.items
    modifies storage
    ensures fresh(app) && app.storage == storage
    ensures app.Fields() == UiState(1500, Closed, "0", 1, BurnMessage)
    ensures storage.items == old(storage.items)[CaloriesKey := "1500"]
  {
    app := FirstRun(storage);
    app.Handle(ClickBurn);
    app.Handle(Change("1500"));
    assert IntToString(1500) == "1500" by {
      assert NatToString(1) == "1";
      assert NatToString(15) == "15";
      assert NatToString(150) == "150";
    }
    IntRoundTrip(1500);
    app.Handle(ClickConfirm);
  }
}
