/**
 * The simple list creator: a conversation that asks the admin for a list
 * name, then for its ids, and the callback that starts that conversation or
 * deletes a list.
 */
module ListCreator {
  import opened Wrappers
  import opened PyText
  import opened Model
  import opened Lists
  import opened BotHandling

  /** The state set when the admin is to type a list name. */
  const NameState := "waiting_list_name"

  /** The state set when the admin is to type the ids of list `name`. */
  function IdsState(name: string): string {
    "waiting_list_ids_" + name
  }

  datatype NameReply = InvalidName | ListExists(name: string) | AskIds(name: string)
  datatype IdsReply = BadId(token: string) | NoDestinations | ListSaved(name: string, count: nat)
  datatype CallbackReply = AskName | ListDeleted(name: string) | NoSuchList(name: string) | Ignored

  /** handle_list_name_input: an accepted name moves the sender on to typing ids; nothing is saved. */
  method HandleListNameInput(store: Store, handler: BotHandler, user: UserId, input: string) returns (reply: NameReply)
    modifies handler
    ensures CheckListName(store.config, input).Ok? ==>
      var name := CheckListName(store.config, input).value;
      reply == AskIds(name) && handler.userStates == old(handler.userStates)[user := IdsState(name)]
    ensures CheckListName(store.config, input) == Err(EmptyName) ==>
      reply == InvalidName && handler.userStates == old(handler.userStates)
    ensures CheckListName(store.config, input).Err? && CheckListName(store.config, input).error.NameTaken? ==>
      reply == ListExists(Strip(input)) && handler.userStates == old(handler.userStates)
  {
    var checked := CheckListName(store.config, input);
    match checked {
      case Err(EmptyName) =>
        reply := InvalidName;
      case Err(NameTaken(name)) =>
        reply := ListExists(name);
      case Ok(name) =>
        handler.SetUserState(user, IdsState(name));
        reply := AskIds(name);
    }
  }

  /**
   * handle_list_ids_input: a well-formed id list is stored under `name`
   * (replacing any list of that name), the configuration saved once and the
   * sender's state cleared; a refused input changes nothing.
   */
  method HandleListIdsInput(store: Store, handler: BotHandler, user: UserId, text: string, name: string)
    returns (reply: IdsReply)
    modifies store, handler
    ensures ParseIdList(text).Ok? ==>
      var ids := ParseIdList(text).value;
      reply == ListSaved(name, |ids|) &&
      store.config == WithList(old(store.config), name, ids) && store.configSaves == old(store.configSaves) + 1 &&
      store.messages == old(store.messages) && store.messageSaves == old(store.messageSaves) &&
      handler.userStates == old(handler.userStates) - {user}
    ensures ParseIdList(text) == Err(NoIds) ==>
      reply == NoDestinations && unchanged(store) && handler.userStates == old(handler.userStates)
    ensures ParseIdList(text).Err? && ParseIdList(text).error.InvalidId? ==>
      reply == BadId(ParseIdList(text).error.token) && unchanged(store) && handler.userStates == old(handler.userStates)
  {
    var parsed := ReadIdList(text);
    match parsed {
      case Err(InvalidId(token)) =>
        reply := BadId(token);
      case Err(NoIds) =>
        reply := NoDestinations;
      case Ok(ids) =>
        store.SaveConfig(WithList(store.config, name, ids));
        handler.ClearUserState(user);
        reply := ListSaved(name, |ids|);
    }
  }

  /**
   * handle_list_callback: "list_create" asks for a name; `delete_list_...`
   * deletes the list whose name is the data with every "delete_list_"
   * removed, saving only when it existed; anything else is ignored.
   */
  method HandleListCallback(store: Store, handler: BotHandler, user: UserId, data: string) returns (reply: CallbackReply)
    modifies store, handler
    ensures data == "list_create" ==>
      reply == AskName && handler.userStates == old(handler.userStates)[user := NameState] && unchanged(store)
    ensures data != "list_create" && DeletePrefix <= data ==>
      var name := ListNameFromCallback(data);
      handler.userStates == old(handler.userStates) &&
      store.messages == old(store.messages) && store.messageSaves == old(store.messageSaves) &&
      (DeleteList(old(store.config), name).Some? ==>
        reply == ListDeleted(name) && store.config == DeleteList(old(store.config), name).value &&
        store.configSaves == old(store.configSaves) + 1) &&
      (DeleteList(old(store.config), name).None? ==> reply == NoSuchList(name) && unchanged(store))
    ensures data != "list_create" && !(DeletePrefix <= data) ==>
      reply == Ignored && unchanged(store) && handler.userStates == old(handler.userStates)
  {
    if data == "list_create" {
      handler.SetUserState(user, NameState);
      return AskName;
    }
    if !(DeletePrefix <= data) {
      return Ignored;
    }
    var name := ListNameFromCallback(data);
    var updated := DeleteList(store.config, name);
    if updated.Some? {
      store.SaveConfig(updated.value);
      reply := ListDeleted(name);
    } else {
      reply := NoSuchList(name);
    }
  }

  /** As written, the router sends neither state the creator sets anywhere: the admin's reply is never handled. */
  lemma CreatorStatesUnrouted(name: string)
    ensures ConversationRouteAsWritten(NameState) == NoRoute
    ensures ConversationRouteAsWritten(IdsState(name)) == NoRoute
  {
    assert NameState[0] == 'w';
    assert IdsState(name)[0] == 'w';
  }

  /** Corrected, both states reach their handlers, and the ids handler gets back exactly the accepted name. */
  lemma CreatorStatesRouted(name: string)
    ensures ConversationRoute(NameState) == ListNameInput
    ensures ConversationRoute(IdsState(name)) == ListIdsInput(Some(name))
  {
    CreatorStatesUnrouted(name);
    assert NameState[13] == 'n';
    IdsStatePrefixes(name);
    IdsStateName(name);
  }

  lemma IdsStatePrefixes(name: string)
    ensures "waiting_list_ids" <= IdsState(name) && !("waiting_list_name" <= IdsState(name))
    ensures IdsState(name) != "waiting_channel_id" && !("waiting_list_ids:" <= IdsState(name))
  {
    assert IdsState(name)[13] == 'i';
    assert IdsState(name)[16] == '_';
  }

  lemma IdsStateName(name: string)
    ensures ListNameFromState(IdsState(name)) == Some(name)
  {
    assert IdsState(name) == "waiting" + "_" + "list" + "_" + "ids" + "_" + name;
    AfterThirdSeparator("waiting", "list", "ids", name);
  }
}
