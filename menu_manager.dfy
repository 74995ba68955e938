/**
 * The admin menu's editing handlers: linking and unlinking the origin
 * channel, adding a default destination, creating and deleting named lists,
 * and the label shown for the global interval.
 */
module Menu {
  import opened Wrappers
  import opened PyText
  import opened Model
  import opened Lists
  import opened BotHandling
  import Forwarding

  // ---------------------------------------------------------------------
  // The origin channel

  datatype ChannelRejection = InvalidNumericId | BadChannelFormat
  datatype ChannelReply = ChannelLinked(channel: ChannelRef) | ChannelRefused(why: ChannelRejection)

  /**
   * handle_channel_input's validation of the stripped text: `@...` is kept
   * verbatim as a username, `-...` must be an int, anything else is refused.
   */
  function ParseChannel(text: string): (r: Result<ChannelRef, ChannelRejection>)
    ensures r.Ok? && r.value.Username? ==> r.value.name == Strip(text) && r.value.name != [] && r.value.name[0] == '@'
    ensures r.Ok? && r.value.Numeric? ==> r.value.id <= 0 && ParseInt(text) == Some(r.value.id)
    ensures r == Err(BadChannelFormat) <==> Strip(text) == [] || (Strip(text)[0] != '@' && Strip(text)[0] != '-')
    ensures r == Err(InvalidNumericId) <==> Strip(text) != [] && Strip(text)[0] == '-' && ParseInt(text).None?
  {
    var t := Strip(text);
    ParseIntOfStrip(text);
    if t != [] && t[0] == '@' then Ok(Username(t))
    else if t != [] && t[0] == '-' then
      match ParseInt(t)
      case Some(v) => Ok(Numeric(v))
      case None => Err(InvalidNumericId)
    else Err(BadChannelFormat)
  }

  /** A negative id, however padded, is linked as that number. */
  lemma NumericChannelRoundTrip(a: string, v: int, b: string)
    requires AllSpace(a) && AllSpace(b) && v < 0
    ensures ParseChannel(a + Show(v) + b) == Ok(Numeric(v))
  {
    ShowTrimmed(v);
    StripPadded(a, Show(v), b);
    ParseShow(v, a, b);
  }

  /** A username, however padded, is linked exactly as typed. */
  lemma UsernameRoundTrip(a: string, name: string, b: string)
    requires AllSpace(a) && AllSpace(b) && Trimmed(name) && name != [] && name[0] == '@'
    ensures ParseChannel(a + name + b) == Ok(Username(name))
  {
    StripPadded(a, name, b);
  }

  /** A positive number is refused as a format error: a channel id must start with '-'. */
  lemma PositiveChannelRefused(v: int)
    requires v >= 0
    ensures ParseChannel(Show(v)) == Err(BadChannelFormat)
  {
    ShowTrimmed(v);
    assert "" + Show(v) + "" == Show(v);
    StripPadded("", Show(v), "");
  }

  /** The state the menu sets when the admin is to type the origin channel. */
  const ChannelState := "waiting_channel_id"

  /** handle_channel_input: a valid channel is stored as origen_chat_id and saved, and the sender's state cleared. */
  method HandleChannelInput(store: Store, handler: BotHandler, user: UserId, text: string) returns (reply: ChannelReply)
    modifies store, handler
    ensures ParseChannel(text).Ok? ==>
      reply == ChannelLinked(ParseChannel(text).value) &&
      store.config == old(store.config).(originChatId := Some(ParseChannel(text).value)) &&
      store.configSaves == old(store.configSaves) + 1 &&
      store.messages == old(store.messages) && store.messageSaves == old(store.messageSaves) &&
      handler.userStates == old(handler.userStates) - {user}
    ensures ParseChannel(text).Err? ==>
      reply == ChannelRefused(ParseChannel(text).error) && unchanged(store) && handler.userStates == old(handler.userStates)
  {
    var parsed := ParseChannel(text);
    if parsed.Err? {
      return ChannelRefused(parsed.error);
    }
    store.SaveConfig(store.config.(originChatId := Some(parsed.value)));
    handler.ClearUserState(user);
    reply := ChannelLinked(parsed.value);
  }

  /** unlink_channel: origen_chat_id becomes None and the configuration is saved; nothing else changes. */
  method UnlinkChannel(store: Store)
    modifies store
    ensures store.config == old(store.config).(originChatId := None)
    ensures store.configSaves == old(store.configSaves) + 1
    ensures store.messages == old(store.messages) && store.messageSaves == old(store.messageSaves)
  {
    store.SaveConfig(store.config.(originChatId := None));
  }

  /** The forwarder reads source_channel_id, never origen_chat_id: linking or unlinking changes no destination. */
  lemma OriginIgnoredByForwarder(cfg: Config, origin: Option<ChannelRef>, d: Descriptor)
    ensures Forwarding.Resolve(cfg.(originChatId := origin), d) == Forwarding.Resolve(cfg, d)
  {
    var c := cfg.(originChatId := origin);
    KeepSameFilter(c, cfg, Destinations(cfg));
    if d.destList.Some? && d.destList.value in NamedLists(cfg) {
      KeepSameFilter(c, cfg, NamedLists(cfg)[d.destList.value]);
    }
    KeepSameFilter(c, cfg, []);
  }

  // ---------------------------------------------------------------------
  // Default destinations

  datatype DestinationReply = DestinationAdded(id: ChatId, total: nat) | DestinationExists(id: ChatId) | InvalidDestination

  predicate NoDuplicates(xs: seq<ChatId>) {
    forall i, j :: 0 <= i < j < |xs| ==> xs[i] != xs[j]
  }

  /** The configuration handle_destination_input saves, None where it saves nothing. */
  function DestinationUpdate(cfg: Config, text: string): (r: Option<Config>)
    ensures r.Some? <==> ParseInt(text).Some? && ParseInt(text).value !in Destinations(cfg)
    ensures r.Some? ==> Destinations(r.value) == Destinations(cfg) + [ParseInt(text).value]
    ensures r.Some? ==> r.value.(destinations := cfg.destinations) == cfg
  {
    match ParseInt(text)
    case None => None
    case Some(id) =>
      if id in Destinations(cfg) then None
      else Some(cfg.(destinations := Some(Destinations(cfg) + [id])))
  }

  /** Adding keeps the destinations free of duplicates. */
  lemma DestinationUpdateNoDuplicates(cfg: Config, text: string)
    requires NoDuplicates(Destinations(cfg)) && DestinationUpdate(cfg, text).Some?
    ensures NoDuplicates(Destinations(DestinationUpdate(cfg, text).value))
  {
    var xs := Destinations(cfg);
    var ys := Destinations(DestinationUpdate(cfg, text).value);
    forall i, j | 0 <= i < j < |ys| ensures ys[i] != ys[j] {
      if j == |xs| {
        assert ys[i] == xs[i] && ys[j] == ParseInt(text).value;
      } else {
        assert ys[i] == xs[i] && ys[j] == xs[j];
      }
    }
  }

  /** Sending the same id twice adds it once: the second attempt saves nothing. */
  lemma DestinationUpdateIdempotent(cfg: Config, text: string)
    requires DestinationUpdate(cfg, text).Some?
    ensures DestinationUpdate(DestinationUpdate(cfg, text).value, text).None?
  {
    var c := DestinationUpdate(cfg, text).value;
    assert Destinations(c)[|Destinations(cfg)|] == ParseInt(text).value;
  }

  /** handle_destination_input: an int not yet among the destinations is appended and saved; otherwise nothing changes. */
  method HandleDestinationInput(store: Store, text: string) returns (reply: DestinationReply)
    modifies store
    ensures DestinationUpdate(old(store.config), text).Some? ==>
      store.config == DestinationUpdate(old(store.config), text).value &&
      store.configSaves == old(store.configSaves) + 1 &&
      store.messages == old(store.messages) && store.messageSaves == old(store.messageSaves) &&
      reply == DestinationAdded(ParseInt(text).value, |Destinations(store.config)|)
    ensures DestinationUpdate(old(store.config), text).None? ==> unchanged(store)
    ensures ParseInt(text).None? ==> reply == InvalidDestination
    ensures ParseInt(text).Some? && ParseInt(text).value in Destinations(old(store.config)) ==>
      reply == DestinationExists(ParseInt(text).value)
  {
    var parsed := ParseInt(text);
    if parsed.None? {
      return InvalidDestination;
    }
    var id := parsed.value;
    if id in Destinations(store.config) {
      return DestinationExists(id);
    }
    var updated := store.config.(destinations := Some(Destinations(store.config) + [id]));
    store.SaveConfig(updated);
    reply := DestinationAdded(id, |Destinations(updated)|);
  }

  // ---------------------------------------------------------------------
  // Named lists

  /** The state the menu sets when the admin is to type the ids of list `name`. */
  function MenuIdsState(name: string): string {
    "waiting_list_ids:" + name
  }

  /**
   * As written, the router sends neither the channel state nor the menu's
   * ids state anywhere: handle_channel_input and handle_list_ids_input are
   * never reached.
   */
  lemma MenuStatesUnrouted(name: string)
    ensures ConversationRouteAsWritten(ChannelState) == NoRoute
    ensures ConversationRouteAsWritten(MenuIdsState(name)) == NoRoute
  {
    assert ChannelState[0] == 'w';
    assert MenuIdsState(name)[0] == 'w';
  }

  /** Corrected, the channel state reaches the channel handler and the ids state hands back exactly the list name. */
  lemma MenuStatesRouted(name: string)
    ensures ConversationRoute(ChannelState) == ChannelInput
    ensures ConversationRoute(MenuIdsState(name)) == MenuListIdsInput(name)
  {
    MenuStatesUnrouted(name);
    assert MenuIdsState(name)[|"waiting_list_ids:"|..] == name;
    assert MenuIdsState(name)[8] == 'l' && ChannelState[8] == 'c';
    assert "waiting_list_ids:" <= MenuIdsState(name);
  }

  datatype NameReply = EmptyListName | ListAlreadyExists(name: string) | AskListIds(name: string)
  datatype IdsReply = InvalidListId(token: string) | NoListIds | ListCreated(name: string, ids: seq<ChatId>)
  datatype DeleteReply = ListRemoved(name: string) | ListMissing(name: string)

  /** handle_list_name_input: an accepted name moves the sender on to typing ids; nothing is saved. */
  method HandleListNameInput(store: Store, handler: BotHandler, user: UserId, input: string) returns (reply: NameReply)
    modifies handler
    ensures CheckListName(store.config, input).Ok? ==>
      var name := CheckListName(store.config, input).value;
      reply == AskListIds(name) && handler.userStates == old(handler.userStates)[user := MenuIdsState(name)]
    ensures CheckListName(store.config, input) == Err(EmptyName) ==>
      reply == EmptyListName && handler.userStates == old(handler.userStates)
    ensures CheckListName(store.config, input).Err? && CheckListName(store.config, input).error.NameTaken? ==>
      reply == ListAlreadyExists(Strip(input)) && handler.userStates == old(handler.userStates)
  {
    var checked := CheckListName(store.config, input);
    match checked {
      case Err(EmptyName) =>
        reply := EmptyListName;
      case Err(NameTaken(name)) =>
        reply := ListAlreadyExists(name);
      case Ok(name) =>
        handler.SetUserState(user, MenuIdsState(name));
        reply := AskListIds(name);
    }
  }

  /**
   * handle_list_ids_input: a well-formed id list is stored under `name` and
   * saved once; the sender's state is left as it was.
   */
  method HandleListIdsInput(store: Store, text: string, name: string) returns (reply: IdsReply)
    modifies store
    ensures ParseIdList(text).Ok? ==>
      reply == ListCreated(name, ParseIdList(text).value) &&
      store.config == WithList(old(store.config), name, ParseIdList(text).value) &&
      store.configSaves == old(store.configSaves) + 1 &&
      store.messages == old(store.messages) && store.messageSaves == old(store.messageSaves)
    ensures ParseIdList(text) == Err(NoIds) ==> reply == NoListIds && unchanged(store)
    ensures ParseIdList(text).Err? && ParseIdList(text).error.InvalidId? ==>
      reply == InvalidListId(ParseIdList(text).error.token) && unchanged(store)
  {
    var parsed := ReadIdList(text);
    match parsed {
      case Err(InvalidId(token)) =>
        reply := InvalidListId(token);
      case Err(NoIds) =>
        reply := NoListIds;
      case Ok(ids) =>
        store.SaveConfig(WithList(store.config, name, ids));
        reply := ListCreated(name, ids);
    }
  }

  /** delete_list: the named list is removed and saved when present; otherwise nothing changes. */
  method DeleteNamedList(store: Store, name: string) returns (reply: DeleteReply)
    modifies store
    ensures DeleteList(old(store.config), name).Some? ==>
      reply == ListRemoved(name) && store.config == DeleteList(old(store.config), name).value &&
      store.configSaves == old(store.configSaves) + 1 &&
      store.messages == old(store.messages) && store.messageSaves == old(store.messageSaves)
    ensures DeleteList(old(store.config), name).None? ==> reply == ListMissing(name) && unchanged(store)
  {
    var updated := DeleteList(store.config, name);
    if updated.None? {
      return ListMissing(name);
    }
    store.SaveConfig(updated.value);
    reply := ListRemoved(name);
  }

  /** A `delete_list_...` callback: the list named by the data with every "delete_list_" removed is deleted. */
  method HandleDeleteListCallback(store: Store, data: string) returns (reply: DeleteReply)
    requires DeletePrefix <= data
    modifies store
    ensures DeleteList(old(store.config), ListNameFromCallback(data)).Some? ==>
      reply == ListRemoved(ListNameFromCallback(data)) &&
      store.config == DeleteList(old(store.config), ListNameFromCallback(data)).value &&
      store.configSaves == old(store.configSaves) + 1 &&
      store.messages == old(store.messages) && store.messageSaves == old(store.messageSaves)
    ensures DeleteList(old(store.config), ListNameFromCallback(data)).None? ==>
      reply == ListMissing(ListNameFromCallback(data)) && unchanged(store)
  {
    reply := DeleteNamedList(store, ListNameFromCallback(data));
  }

  // ---------------------------------------------------------------------
  // The global-interval label

  const MinutesSuffix := " minutos"

  /**
   * The label of the status screen: four preset values have their own
   * words; any other value is shown as its whole minutes, `seconds // 60`
   * (Dafny's division agrees with Python's floor division for the positive
   * divisor 60).
   */
  function IntervalLabel(seconds: int): string {
    if seconds == 60 then "1 minuto"
    else if seconds == 300 then "5 minutos"
    else if seconds == 1800 then "30 minutos"
    else if seconds == 3600 then "1 hora"
    else Show(seconds / 60) + MinutesSuffix
  }

  /** `config.get('intervalo_global', 60)` labelled: a configuration without the key reads "1 minuto". */
  function GlobalIntervalLabel(cfg: Config): (r: string)
    ensures cfg.globalInterval.None? ==> r == "1 minuto"
  {
    IntervalLabel(cfg.globalInterval.GetOr(60))
  }

  /** Off the presets, the label ends in " minutos" after a number m that int() reads back, with 60m <= seconds < 60m + 60. */
  lemma IntervalLabelReadsMinutes(seconds: int)
    requires seconds !in {60, 300, 1800, 3600}
    ensures var r := IntervalLabel(seconds);
      |r| > |MinutesSuffix| && r[|r| - |MinutesSuffix|..] == MinutesSuffix &&
      exists m :: ParseInt(r[..|r| - |MinutesSuffix|]) == Some(m) && 60 * m <= seconds < 60 * m + 60
  {
    var m := seconds / 60;
    assert IntervalLabel(seconds) == Show(m) + MinutesSuffix;
    MinutesLabelParts(m);
    FloorMinutes(seconds);
  }

  lemma MinutesLabelParts(m: int)
    ensures var r := Show(m) + MinutesSuffix;
      |r| > |MinutesSuffix| && r[|r| - |MinutesSuffix|..] == MinutesSuffix &&
      ParseInt(r[..|r| - |MinutesSuffix|]) == Some(m)
  {
    var r := Show(m) + MinutesSuffix;
    assert r[..|r| - |MinutesSuffix|] == "" + Show(m) + "";
    ParseShow(m, "", "");
  }

  lemma FloorMinutes(seconds: int)
    ensures 60 * (seconds / 60) <= seconds < 60 * (seconds / 60) + 60
  {
  }

  /**
   * Apart from one minute and one hour, whose preset words differ from the
   * generic form, the label depends only on the whole minutes: 301 seconds
   * read "5 minutos", like 300.
   */
  lemma LabelByWholeMinutes(s: int)
    requires s / 60 != 1 && s / 60 != 60
    ensures IntervalLabel(s) == IntervalLabel(60 * (s / 60))
  {
    var m := s / 60;
    var k := 60 * m;
    assert k / 60 == m;
    if m == 5 {
      assert Show(5) == "5";
    } else if m == 30 {
      assert Show(30) == "30";
    } else {
      assert k !in {60, 300, 1800, 3600};
    }
  }
}
