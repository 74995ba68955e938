/**
 * The conversation side of the bot handler: the per-user conversation state,
 * recognising the reply-keyboard labels, routing a message by the sender's
 * state (with the list name read out of the state string), and deleting
 * descriptors by their listed number.
 */
module BotHandling {
  import opened Wrappers
  import opened PyText
  import opened Model
  import Messages

  /** `user_states.get(user)` */
  function StateOf(states: map<UserId, string>, user: UserId): Option<string> {
    if user in states then Some(states[user]) else None
  }

  /** After setting a user's state, that user reads it back and every other user reads what they did before. */
  lemma SetThenGet(states: map<UserId, string>, user: UserId, state: string, other: UserId)
    ensures StateOf(states[user := state], user) == Some(state)
    ensures other != user ==> StateOf(states[user := state], other) == StateOf(states, other)
  {
  }

  /** After clearing a user's state that user has none, every other user keeps theirs, and clearing again changes nothing. */
  lemma ClearThenGet(states: map<UserId, string>, user: UserId, other: UserId)
    ensures StateOf(states - {user}, user) == None
    ensures other != user ==> StateOf(states - {user}, other) == StateOf(states, other)
    ensures (states - {user}) - {user} == states - {user}
    ensures user !in states ==> states - {user} == states
  {
  }

  // ---------------------------------------------------------------------
  // The reply keyboard

  /** The sixteen labels `_is_keyboard_command` recognises. */
  const KeyboardLabels: seq<string> := [
    "🔗 Vincular Canal", "📝 Gestión de Mensajes", "📋 Gestión de Listas",
    "📄 Estado del Bot", "🔙 Volver al Menú", "📥 Agregar Mensaje",
    "📋 Ver Mensajes", "🗑️ Eliminar Mensajes", "➕ Crear Lista",
    "👁️ Ver Listas", "🗑️ Eliminar Listas", "Cancelar", "Atrás",
    "🏠 Menú Principal", "⚙️ Configuración", "📊 Estadísticas"]

  /** The label the keyboard dispatcher tests for the message list, which is not one of KeyboardLabels. */
  const ViewMessagesCommand := "📝 Ver Mensajes"

  /** `_is_keyboard_command(text)`: a missing or empty text is not a command; otherwise its strip() must be a label. */
  function IsKeyboardCommand(text: Option<string>): (r: bool)
    ensures text.None? || text == Some("") ==> !r
    ensures r <==> text.Some? && Strip(text.value) in KeyboardLabels
  {
    EmptyIsNoLabel();
    text.Some? && text.value != "" && Strip(text.value) in KeyboardLabels
  }

  lemma EmptyIsNoLabel()
    ensures Strip("") == "" && "" !in KeyboardLabels
  {
    LabelsTrimmed();
  }

  lemma LabelsTrimmed()
    ensures forall i :: 0 <= i < |KeyboardLabels| ==> KeyboardLabels[i] != "" && Trimmed(KeyboardLabels[i])
  {
  }

  /** A label surrounded by whitespace is still recognised. */
  lemma PaddedLabelIsCommand(a: string, i: nat, b: string)
    requires AllSpace(a) && AllSpace(b) && i < |KeyboardLabels|
    ensures IsKeyboardCommand(Some(a + KeyboardLabels[i] + b))
  {
    LabelsTrimmed();
    StripPadded(a, KeyboardLabels[i], b);
  }

  /**
   * The message-list label the dispatcher acts on ("📝") differs from the
   * keyboard's own ("📋"), so it is not recognised as a keyboard command.
   */
  lemma ViewMessagesNotACommand()
    ensures !IsKeyboardCommand(Some(ViewMessagesCommand))
  {
    assert "" + ViewMessagesCommand + "" == ViewMessagesCommand;
    StripPadded("", ViewMessagesCommand, "");
    ViewMessagesNotALabel();
  }

  lemma ViewMessagesNotALabel()
    ensures ViewMessagesCommand !in KeyboardLabels
  {
  }

  // ---------------------------------------------------------------------
  // Routing a message by the sender's conversation state

  /**
   * Where handle_conversation_state sends a message. ListIdsInput carries the
   * list name read from the state, None where reading it raises IndexError.
   */
  datatype Route =
    | DestinationInput
    | MessageAddInput
    | TimezoneInput
    | DestinationChoice
    | ListNameInput
    | ListIdsInput(listName: Option<string>)
    | ChannelInput
    | MenuListIdsInput(menuListName: string)
    | NoRoute

  /** `state.split('_', 3)[3]`: everything after the third underscore, later underscores kept. */
  function ListNameFromState(state: string): Option<string> {
    AfterSeparators(state, '_', 3)
  }

  /** For `awaiting_list_ids_<name>` the list name is `<name>` exactly, whatever underscores it holds. */
  lemma ListNameAfterPrefix(name: string)
    ensures ListNameFromState("awaiting_list_ids_" + name) == Some(name)
  {
    assert "awaiting_list_ids_" + name == "awaiting" + "_" + "list" + "_" + "ids" + "_" + name;
    AfterThirdSeparator("awaiting", "list", "ids", name);
  }

  lemma AfterThirdSeparator(a: string, b: string, c: string, name: string)
    requires Avoids(a, '_') && Avoids(b, '_') && Avoids(c, '_')
    ensures AfterSeparators(a + "_" + b + "_" + c + "_" + name, '_', 3) == Some(name)
  {
    assert a + "_" + b + "_" + c + "_" + name == a + ['_'] + (b + "_" + c + "_" + name);
    AfterSeparatorsSkip(a, '_', b + "_" + c + "_" + name, 2);
    assert b + "_" + c + "_" + name == b + ['_'] + (c + "_" + name);
    AfterSeparatorsSkip(b, '_', c + "_" + name, 1);
    assert c + "_" + name == c + ['_'] + name;
    AfterSeparatorsSkip(c, '_', name, 0);
  }

  /** The bare state `awaiting_list_ids` has only two underscores: reading the name raises IndexError. */
  lemma ListNameOfBarePrefix()
    ensures ListNameFromState("awaiting_list_ids") == None
  {
    assert "awaiting_list_ids" == "awaiting" + "_" + "list" + "_" + "ids";
    NoThirdSeparator("awaiting", "list", "ids");
  }

  lemma NoThirdSeparator(a: string, b: string, c: string)
    requires Avoids(a, '_') && Avoids(b, '_') && Avoids(c, '_')
    ensures AfterSeparators(a + "_" + b + "_" + c, '_', 3) == None
  {
    assert a + "_" + b + "_" + c == a + ['_'] + (b + "_" + c);
    AfterSeparatorsSkip(a, '_', b + "_" + c, 2);
    assert b + "_" + c == b + ['_'] + c;
    AfterSeparatorsSkip(b, '_', c, 1);
    AfterSeparatorsShort(c, '_', 1);
  }

  /** handle_conversation_state as written: exact states, then the two `awaiting_list_` prefixes. */
  function ConversationRouteAsWritten(state: string): Route {
    if state == "awaiting_destination_input" then DestinationInput
    else if state == "awaiting_message_add" then MessageAddInput
    else if state == "awaiting_timezone_input" then TimezoneInput
    else if state == "awaiting_destination_choice" then DestinationChoice
    else if "awaiting_list_name" <= state then ListNameInput
    else if "awaiting_list_ids" <= state then ListIdsInput(ListNameFromState(state))
    else NoRoute
  }

  /**
   * The routing the handlers rely on: as written, and in addition the states
   * the list creator sets, `waiting_list_name` and `waiting_list_ids_<name>`,
   * and those the menu sets, `waiting_channel_id` and
   * `waiting_list_ids:<name>`.
   */
  function ConversationRoute(state: string): (r: Route)
    ensures ConversationRouteAsWritten(state) != NoRoute ==> r == ConversationRouteAsWritten(state)
  {
    var written := ConversationRouteAsWritten(state);
    if written != NoRoute then written
    else if state == "waiting_channel_id" then ChannelInput
    else if "waiting_list_ids:" <= state then MenuListIdsInput(state[|"waiting_list_ids:"|..])
    else if "waiting_list_name" <= state then ListNameInput
    else if "waiting_list_ids" <= state then ListIdsInput(ListNameFromState(state))
    else NoRoute
  }

  // ---------------------------------------------------------------------
  // Deleting descriptors by number

  /** The phrase that deletes every descriptor, compared after lower(). */
  const DeleteAllPhrase := "eliminar todos"

  /** What handle_delete_all_messages answers. */
  datatype DeletionReply = NoMessages | AllDeleted | Deleted(id: Option<int>) | InvalidFormat

  /** What the admin's text selects. */
  datatype Selection = EveryMessage | AtIndex(index: nat) | Unusable

  /** Python's index for `list.pop(n)` on a list of `len` elements; None where pop raises IndexError. */
  function PyIndex(n: int, len: nat): (r: Option<nat>)
    ensures r.Some? <==> -(len as int) <= n < len
    ensures r.Some? ==> r.value < len && r.value % len == n % len
  {
    if 0 <= n < len then Some(n)
    else if -(len as int) <= n < 0 then ModShift(n, len); Some(n + len)
    else None
  }

  /** Adding the divisor once leaves the remainder as it is. */
  lemma ModShift(n: int, len: nat)
    requires len > 0
    ensures (n + len) % len == n % len
  {
    var q := n / len;
    assert n + len == (q + 1) * len + n % len;
    ModUnique(n + len, len, q + 1, n % len);
  }

  /** A remainder in range determines the remainder. */
  lemma ModUnique(a: int, d: nat, q: int, r: int)
    requires d > 0 && 0 <= r < d && a == q * d + r
    ensures a % d == r
  {
    var q' := a / d;
    assert (q - q') * d == a % d - r;
    SmallMultiple(q - q', d);
  }

  /** The only multiple of d strictly between -d and d is 0. */
  lemma SmallMultiple(x: int, d: nat)
    requires d > 0
    ensures -(d as int) < x * d < d ==> x == 0
  {
    if x > 0 {
      PositiveMultiple(x, d);
    } else if x < 0 {
      PositiveMultiple(-x, d);
      assert (-x) * d == -(x * d);
    }
  }

  lemma {:induction false} PositiveMultiple(x: nat, d: nat)
    requires x > 0
    ensures x * d >= d
    decreases x
  {
    if x > 1 {
      PositiveMultiple(x - 1, d);
      assert x * d == (x - 1) * d + d;
    }
  }

  /**
   * `text.lower() == 'eliminar todos'`, else `msgs.pop(int(text.strip()) - 1)`;
   * int() ignores surrounding whitespace itself.
   */
  function Select(msgs: seq<Descriptor>, text: string): (s: Selection)
    ensures s.AtIndex? ==> s.index < |msgs|
  {
    if LowerAscii(text) == DeleteAllPhrase then EveryMessage
    else match ParseInt(text)
      case None => Unusable
      case Some(n) =>
        match PyIndex(n - 1, |msgs|)
        case None => Unusable
        case Some(i) => AtIndex(i)
  }

  /** The list that is saved for a selection, None where nothing is saved. */
  function SavedList(msgs: seq<Descriptor>, s: Selection): Option<seq<Descriptor>>
    requires s.AtIndex? ==> s.index < |msgs|
  {
    match s
    case EveryMessage => Some([])
    case AtIndex(i) => Some(Messages.RemoveAt(msgs, i))
    case Unusable => None
  }

  /**
   * The reply as written: after the pop and the save, `deleted['id']` raises
   * KeyError for a descriptor without an `id` key, and the bare except answers
   * "Formato inválido".
   */
  function ReplyAsWritten(msgs: seq<Descriptor>, s: Selection): DeletionReply
    requires s.AtIndex? ==> s.index < |msgs|
  {
    match s
    case EveryMessage => AllDeleted
    case AtIndex(i) => if msgs[i].id.Some? then Deleted(msgs[i].id) else InvalidFormat
    case Unusable => InvalidFormat
  }

  /** The reply the handler means to give: a deletion is reported as one, with the id when the descriptor has one. */
  function Reply(msgs: seq<Descriptor>, s: Selection): (r: DeletionReply)
    requires s.AtIndex? ==> s.index < |msgs|
    ensures r == InvalidFormat <==> SavedList(msgs, s).None?
    ensures s.AtIndex? && msgs[s.index].id.Some? ==> r == ReplyAsWritten(msgs, s)
  {
    match s
    case EveryMessage => AllDeleted
    case AtIndex(i) => Deleted(msgs[i].id)
    case Unusable => InvalidFormat
  }

  /** A number is never the delete-all phrase, and int() reads it back. */
  lemma NumberText(k: int)
    ensures LowerAscii(Show(k)) != DeleteAllPhrase
    ensures ParseInt(Show(k)) == Some(k)
  {
    assert "" + Show(k) + "" == Show(k);
    ParseShow(k, "", "");
    var c := Show(k)[0];
    assert c == '-' || IsDigit(c);
    assert LowerAscii(Show(k))[0] == c;
    assert DeleteAllPhrase[0] == 'e';
  }

  /** A typed number selects what pop(k - 1) would remove. */
  lemma SelectNumber(msgs: seq<Descriptor>, k: int)
    ensures Select(msgs, Show(k)) ==
      var p := PyIndex(k - 1, |msgs|);
      if p.Some? then AtIndex(p.value) else Unusable
  {
    NumberText(k);
    SelectParsed(msgs, Show(k), k);
  }

  /** A text that is not the phrase and that int() reads as k selects what pop(k - 1) would remove. */
  lemma SelectParsed(msgs: seq<Descriptor>, t: string, k: int)
    requires LowerAscii(t) != DeleteAllPhrase && ParseInt(t) == Some(k)
    ensures Select(msgs, t) ==
      var p := PyIndex(k - 1, |msgs|);
      if p.Some? then AtIndex(p.value) else Unusable
  {
  }

  /** Typing the number k shown in the list (1-based) removes the k-th descriptor. */
  lemma SelectListedNumber(msgs: seq<Descriptor>, k: int)
    requires 1 <= k <= |msgs|
    ensures Select(msgs, Show(k)) == AtIndex(k - 1)
  {
    SelectNumber(msgs, k);
  }

  /** Typing 0 removes the last descriptor (pop(-1)), -1 the one before it, and so on. */
  lemma SelectCountsFromEnd(msgs: seq<Descriptor>, k: int)
    requires -|msgs| < k <= 0
    ensures Select(msgs, Show(k)) == AtIndex(|msgs| + k - 1)
  {
    SelectNumber(msgs, k);
  }

  /** A number past the end, or at or below minus the length less one, selects nothing. */
  lemma SelectOutOfRange(msgs: seq<Descriptor>, k: int)
    requires k > |msgs| || k <= -|msgs|
    ensures Select(msgs, Show(k)) == Unusable
  {
    SelectNumber(msgs, k);
  }

  /** Any text whose lower() is the phrase deletes every descriptor, whatever the list. */
  lemma SelectPhrase(msgs: seq<Descriptor>, t: string)
    requires LowerAscii(t) == DeleteAllPhrase
    ensures Select(msgs, t) == EveryMessage
  {
  }

  /** Two spellings of the phrase, as instances of SelectPhrase. */
  lemma SelectPhraseAnyCase(msgs: seq<Descriptor>)
    ensures Select(msgs, "Eliminar Todos") == EveryMessage
    ensures Select(msgs, "ELIMINAR TODOS") == EveryMessage
  {
    assert LowerAscii("Eliminar Todos") == DeleteAllPhrase;
    assert LowerAscii("ELIMINAR TODOS") == DeleteAllPhrase;
    SelectPhrase(msgs, "Eliminar Todos");
    SelectPhrase(msgs, "ELIMINAR TODOS");
  }

  /** As written, deleting a registered descriptor by number saves the shorter list and still answers "Formato inválido". */
  lemma DeletedRegisteredReportsInvalid(chat: ChatId, mid: MessageId)
    ensures var msgs := [Messages.NewDescriptor(chat, mid, Messages.SharedInterval)];
      Select(msgs, "1") == AtIndex(0) &&
      SavedList(msgs, AtIndex(0)) == Some([]) &&
      ReplyAsWritten(msgs, AtIndex(0)) == InvalidFormat &&
      Reply(msgs, AtIndex(0)) == Deleted(None)
  {
    var msgs := [Messages.NewDescriptor(chat, mid, Messages.SharedInterval)];
    assert Show(1) == "1";
    SelectListedNumber(msgs, 1);
  }

  class BotHandler {
    /** user_states: the conversation state of each user that has one. */
    var userStates: map<UserId, string>

    constructor ()
      ensures userStates == map[]
    {
      userStates := map[];
    }

    /** set_user_state */
    method SetUserState(user: UserId, state: string)
      modifies this
      ensures userStates == old(userStates)[user := state]
      ensures GetUserState(user) == Some(state)
    {
      userStates := userStates[user := state];
    }

    /** get_user_state */
    function GetUserState(user: UserId): (s: Option<string>)
      reads this
      ensures s.Some? <==> user in userStates
      ensures s.Some? ==> s.value == userStates[user]
    {
      StateOf(userStates, user)
    }

    /** clear_user_state: `pop(user, None)`, so clearing an absent state is harmless. */
    method ClearUserState(user: UserId)
      modifies this
      ensures userStates == old(userStates) - {user}
      ensures GetUserState(user) == None
    {
      userStates := userStates - {user};
    }

    /**
     * handle_delete_all_messages, with the reply as intended (Reply). With no
     * descriptors nothing happens; otherwise the sender's state is cleared and
     * the selected deletion, if any, is saved once.
     */
    method HandleDeleteAllMessages(store: Store, user: UserId, text: string) returns (reply: DeletionReply)
      modifies this, store
      ensures old(store.messages) == [] ==> reply == NoMessages && unchanged(store) && userStates == old(userStates)
      ensures old(store.messages) != [] ==>
        var s := Select(old(store.messages), text);
        userStates == old(userStates) - {user} &&
        reply == Reply(old(store.messages), s) &&
        store.config == old(store.config) && store.configSaves == old(store.configSaves) &&
        (SavedList(old(store.messages), s).Some? ==>
          store.messages == SavedList(old(store.messages), s).value && store.messageSaves == old(store.messageSaves) + 1) &&
        (SavedList(old(store.messages), s).None? ==>
          store.messages == old(store.messages) && store.messageSaves == old(store.messageSaves))
    {
      var msgs := store.messages;
      if msgs == [] {
        return NoMessages;
      }
      ClearUserState(user);
      var s := Select(msgs, text);
      var saved := SavedList(msgs, s);
      if saved.Some? {
        store.SaveMessages(saved.value);
      }
      reply := Reply(msgs, s);
    }
  }
}
