/**
 * The two persisted documents of the bot: the configuration (config.json)
 * and the ordered list of message descriptors (mensajes.json), and the
 * in-memory store that stands for both files.
 */
module Model {
  import opened Wrappers

  type ChatId = int
  type MessageId = int
  type UserId = int

  /** The source channel as the admin types it: a numeric id or an @username. */
  datatype ChannelRef = Numeric(id: int) | Username(name: string)

  /**
   * The configuration document. Each field is one JSON key; None stands for
   * an absent key only, and a JSON null is not modelled. The bot itself
   * writes a null only into origen_chat_id, which the forwarder never reads.
   *   adminId ~ admin_id, sourceChannelId ~ source_channel_id (read by the
   *   forwarder), originChatId ~ origen_chat_id (written by the menu),
   *   destinations ~ destinos, namedLists ~ listas_destinos,
   *   globalInterval ~ intervalo_global, timezone ~ timezone.
   */
  datatype Config = Config(
    adminId: Option<ChatId>,
    sourceChannelId: Option<ChatId>,
    originChatId: Option<ChannelRef>,
    destinations: Option<seq<ChatId>>,
    namedLists: Option<map<string, seq<ChatId>>>,
    globalInterval: Option<int>,
    timezone: Option<string>)

  /** `config.get('destinos', [])` */
  function Destinations(c: Config): seq<ChatId> {
    c.destinations.GetOr([])
  }

  /** `config.get('listas_destinos', {})` */
  function NamedLists(c: Config): map<string, seq<ChatId>> {
    c.namedLists.GetOr(map[])
  }

  /**
   * One registered message. fromChatId and messageId (from_chat_id,
   * message_id) identify the original; the other keys are optional:
   *   id ~ id, interval ~ interval, intervalSeconds ~ intervalo_segundos,
   *   destAll ~ dest_all, destList ~ dest_list, active ~ active,
   *   sendCount ~ send_count, deleteAfter ~ delete_after (minutes).
   */
  datatype Descriptor = Descriptor(
    fromChatId: ChatId,
    messageId: MessageId,
    id: Option<int>,
    interval: Option<int>,
    intervalSeconds: Option<int>,
    destAll: Option<bool>,
    destList: Option<string>,
    active: Option<bool>,
    sendCount: Option<int>,
    deleteAfter: Option<int>)

  /** The pair that identifies a descriptor. */
  function Identity(d: Descriptor): (ChatId, MessageId) {
    (d.fromChatId, d.messageId)
  }

  /**
   * config.json and mensajes.json. `load_config`/`load_messages` read the
   * fields; `save_config`/`save_messages` replace them and are counted, so
   * that a contract can say how many writes an operation made.
   */
  class Store {
    var config: Config
    var messages: seq<Descriptor>
    var configSaves: nat
    var messageSaves: nat

    constructor (config: Config, messages: seq<Descriptor>)
      ensures this.config == config && this.messages == messages
      ensures configSaves == 0 && messageSaves == 0
    {
      this.config := config;
      this.messages := messages;
      configSaves := 0;
      messageSaves := 0;
    }

    /** save_config: config.json now holds `c`. */
    method SaveConfig(c: Config)
      modifies this
      ensures config == c && configSaves == old(configSaves) + 1
      ensures messages == old(messages) && messageSaves == old(messageSaves)
    {
      config := c;
      configSaves := configSaves + 1;
    }

    /** save_messages: mensajes.json now holds `ms`. */
    method SaveMessages(ms: seq<Descriptor>)
      modifies this
      ensures messages == ms && messageSaves == old(messageSaves) + 1
      ensures config == old(config) && configSaves == old(configSaves)
    {
      messages := ms;
      messageSaves := messageSaves + 1;
    }
  }
}
