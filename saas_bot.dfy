/**
 * The Discord bot `SaaSBot` as a class: its database connection is the five
 * tables of `init_database`, held in fields that every handler updates in
 * place, and each handler is proved to leave exactly the tables the
 * corresponding `EventStore` function describes.
 */
module DiscordBot {
  import opened Text
  import opened EventStore

  class SaaSBot {
    /** The id of the bot's own Discord user (`self.user`). */
    const botId: nat

    var servers: Table<Server>
    var channels: Table<Channel>
    var users: Table<User>
    var messages: Table<Message>
    var attachments: Table<Attachment>

    /** The database as a value. */
    function State(): Tables
      reads this
    {
      Tables(servers, channels, users, messages, attachments)
    }

    /** What SQLite keeps true of the database whatever the bot does. */
    predicate Valid()
      reads this
    {
      SchemaValid(State())
    }

    /** The bot connected to a database whose tables `init_database` found or created. */
    constructor (botId: nat, stored: Tables)
      requires SchemaValid(stored)
      ensures this.botId == botId && State() == stored && Valid()
    {
      this.botId := botId;
      servers := stored.servers;
      channels := stored.channels;
      users := stored.users;
      messages := stored.messages;
      attachments := stored.attachments;
    }

    /** `get_server_id`: the id of the server row named after the guild, inserted when missing. */
    method GetServerId(guildId: nat) returns (serverId: nat)
      requires Valid()
      modifies this
      ensures Valid()
      ensures State() == ResolveServer(old(State()), guildId).db
      ensures serverId == ResolveServer(old(State()), guildId).id
    {
      var name := ServerNameFor(guildId);
      var result := FindIndex(servers.rows, ServerName, name);
      if result.None? {
        var inserted := Insert(servers, Server(name));
        servers := inserted.table;
        serverId := inserted.id;
      } else {
        serverId := servers.rows[result.value].id;
      }
    }

    /** `get_or_create_channel`: looked up by the Discord channel id alone. */
    method GetOrCreateChannel(serverId: nat, discordChannelId: nat, name: string) returns (channelId: nat)
      requires Valid()
      modifies this
      ensures Valid()
      ensures State() == ResolveChannel(old(State()), serverId, discordChannelId, name).db
      ensures channelId == ResolveChannel(old(State()), serverId, discordChannelId, name).id
    {
      var key := DecimalString(discordChannelId);
      var result := FindIndex(channels.rows, ChannelKey, key);
      if result.None? {
        var inserted := Insert(channels, Channel(serverId, key, name));
        channels := inserted.table;
        channelId := inserted.id;
      } else {
        channelId := channels.rows[result.value].id;
      }
    }

    /** `get_or_create_user`: looked up by the Discord user id. */
    method GetOrCreateUser(discordUserId: nat, name: string) returns (userId: nat)
      requires Valid()
      modifies this
      ensures Valid()
      ensures State() == ResolveUser(old(State()), discordUserId, name).db
      ensures userId == ResolveUser(old(State()), discordUserId, name).id
    {
      var key := DecimalString(discordUserId);
      var result := FindIndex(users.rows, UserKey, key);
      if result.None? {
        GetOrCreateKeepsKeysUnique(users, UserKey, User(key, name));
        var inserted := Insert(users, User(key, name));
        users := inserted.table;
        userId := inserted.id;
      } else {
        userId := users.rows[result.value].id;
      }
    }

    /** `store_message`: one new row, whose id is returned. */
    method StoreMessage(channelId: nat, userId: nat, content: string) returns (messageId: nat)
      requires Valid()
      modifies this
      ensures Valid()
      ensures State() == AppendMessage(old(State()), channelId, userId, content).db
      ensures messageId == AppendMessage(old(State()), channelId, userId, content).id
    {
      var inserted := Insert(messages, Message(channelId, userId, content));
      messages := inserted.table;
      messageId := inserted.id;
    }

    /** `store_attachment`: one new row. */
    method StoreAttachment(messageId: nat, attachment: DiscordAttachment)
      requires Valid()
      modifies this
      ensures Valid()
      ensures State() == AppendAttachment(old(State()), messageId, attachment)
    {
      attachments := Insert(attachments, AttachmentRecord(messageId, attachment)).table;
    }

    /**
     * `on_message`: ignore the bot's own messages; resolve server, channel and
     * author, store the message, then each attachment in turn. A direct message
     * has no guild, so the handler raises before writing anything.
     */
    method OnMessage(msg: DiscordMessage)
      requires Valid()
      modifies this
      ensures Valid()
      ensures State() == HandleMessage(old(State()), botId, msg)
    {
      if msg.authorId == botId {
        return;
      }
      if msg.guildId.None? {
        return;
      }
      var serverId := GetServerId(msg.guildId.value);
      var channelId := GetOrCreateChannel(serverId, msg.channelId, msg.channelName);
      var userId := GetOrCreateUser(msg.authorId, msg.authorName);
      var messageId := StoreMessage(channelId, userId, msg.content);
      StoreAttachments(messageId, msg.attachments);
    }

    /** The `for attachment in message.attachments` loop of `on_message`. */
    method StoreAttachments(messageId: nat, atts: seq<DiscordAttachment>)
      requires Valid()
      modifies this
      ensures Valid()
      ensures State() == AppendAttachments(old(State()), messageId, atts)
    {
      for i := 0 to |atts|
        invariant Valid()
        invariant State() == AppendAttachments(old(State()), messageId, atts[..i])
      {
        assert atts[..i + 1][..i] == atts[..i];
        StoreAttachment(messageId, atts[i]);
      }
      assert atts[..|atts|] == atts;
    }
  }
}
