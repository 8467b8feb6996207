/**
 * The SQLite store behind the Discord bot `SaaSBot`, as values: each table of
 * `init_database` is a sequence of rows in rowid order together with its
 * AUTOINCREMENT sequence value, and every statement the bot executes is a
 * function from the tables before it to the tables after it.
 */
module EventStore {
  import opened Base
  import opened Text

  // ---------------------------------------------------------------------------
  // Tables with AUTOINCREMENT ids
  // ---------------------------------------------------------------------------

  /** A stored row: its `INTEGER PRIMARY KEY` and its other columns. */
  datatype Row<R> = Row(id: nat, data: R)

  /**
   * A table declared `id INTEGER PRIMARY KEY AUTOINCREMENT`: its rows in rowid
   * order and the largest id it ever handed out (its `sqlite_sequence` entry).
   */
  datatype Table<R> = Table(rows: seq<Row<R>>, lastId: nat)

  /** The table after an INSERT, with the id `cursor.lastrowid` reports, or a looked-up id. */
  datatype Inserted<R> = Inserted(table: Table<R>, id: nat)

  /** What AUTOINCREMENT guarantees: ids are positive, strictly ascending and never above the sequence value. */
  predicate WellFormed<R>(t: Table<R>) {
    (forall i :: 0 <= i < |t.rows| ==> 0 < t.rows[i].id <= t.lastId)
    && (forall i, j :: 0 <= i < j < |t.rows| ==> t.rows[i].id < t.rows[j].id)
  }

  /** Some row of the table has this id. */
  predicate HasId<R>(t: Table<R>, id: nat) {
    exists i :: 0 <= i < |t.rows| && t.rows[i].id == id
  }

  /** Some row of the table has this id and this value in the keyed column. */
  predicate HasKeyedRow<R>(t: Table<R>, id: nat, key: R -> string, k: string) {
    exists i :: 0 <= i < |t.rows| && t.rows[i].id == id && key(t.rows[i].data) == k
  }

  /** No two rows share a value in the keyed column. */
  predicate UniqueKeys<R>(rows: seq<Row<R>>, key: R -> string) {
    forall i, j :: 0 <= i < j < |rows| ==> key(rows[i].data) != key(rows[j].data)
  }

  /**
   * `INSERT INTO t (...) VALUES (...)`: the row takes the id after the sequence
   * value, which becomes the new sequence value.
   */
  function Insert<R>(t: Table<R>, data: R): (r: Inserted<R>)
    ensures r.table.rows == t.rows + [Row(r.id, data)] && r.table.lastId == r.id
    ensures WellFormed(t) ==> WellFormed(r.table)
    ensures WellFormed(t) ==> forall i :: 0 <= i < |t.rows| ==> t.rows[i].id < r.id
  {
    Inserted(Table(t.rows + [Row(t.lastId + 1, data)], t.lastId + 1), t.lastId + 1)
  }

  /**
   * `SELECT id FROM t WHERE column = ?` followed by `fetchone()`: the position
   * of the first row, in rowid order, whose keyed column equals `k`.
   */
  function FindIndex<R>(rows: seq<Row<R>>, key: R -> string, k: string): (r: Option<nat>)
    ensures r.Some? ==> r.value < |rows| && key(rows[r.value].data) == k
  {
    if rows == [] then None
    else
      match FindIndex(rows[..|rows| - 1], key, k)
      case Some(i) => Some(i)
      case None => if key(rows[|rows| - 1].data) == k then Some(|rows| - 1) else None
  }

  /** The lookup finds nothing iff no row carries the key. */
  lemma {:induction false} FindIndexNone<R>(rows: seq<Row<R>>, key: R -> string, k: string)
    ensures FindIndex(rows, key, k).None? <==> forall i :: 0 <= i < |rows| ==> key(rows[i].data) != k
  {
    if rows != [] {
      FindIndexNone(rows[..|rows| - 1], key, k);
    }
  }

  /** The lookup returns the first row carrying the key. */
  lemma {:induction false} FindIndexFirstMatch<R>(rows: seq<Row<R>>, key: R -> string, k: string, i: nat)
    requires i < |rows| && key(rows[i].data) == k
    requires forall j :: 0 <= j < i ==> key(rows[j].data) != k
    ensures FindIndex(rows, key, k) == Some(i)
  {
    var n := |rows|;
    if i < n - 1 {
      FindIndexFirstMatch(rows[..n - 1], key, k, i);
    } else {
      FindIndexNone(rows[..n - 1], key, k);
    }
  }

  /** Appending a row leaves an earlier match in place and can only add a match at the end. */
  lemma FindIndexAppend<R>(rows: seq<Row<R>>, row: Row<R>, key: R -> string, k: string)
    ensures FindIndex(rows + [row], key, k)
         == if FindIndex(rows, key, k).Some? then FindIndex(rows, key, k)
            else if key(row.data) == k then Some(|rows|) else None
  {
    assert (rows + [row])[..|rows|] == rows;
  }

  // ---------------------------------------------------------------------------
  // Get or create
  // ---------------------------------------------------------------------------

  /**
   * The "get or create" pattern of the bot: look the key of `candidate` up, return
   * the id found, and otherwise insert `candidate` and return its new id.
   */
  function GetOrCreate<R>(t: Table<R>, key: R -> string, candidate: R): (r: Inserted<R>)
    ensures t.rows <= r.table.rows && |r.table.rows| <= |t.rows| + 1
    ensures |r.table.rows| == |t.rows| + 1 ==> r.table.rows[|t.rows|].data == candidate
    ensures HasKeyedRow(r.table, r.id, key, key(candidate))
    ensures WellFormed(t) ==> WellFormed(r.table)
  {
    match FindIndex(t.rows, key, key(candidate))
    case Some(i) => Inserted(t, t.rows[i].id)
    case None =>
      var ins := Insert(t, candidate);
      assert ins.table.rows[|t.rows|] == Row(ins.id, candidate);
      ins
  }

  /** A key already stored: the first row carrying it is returned and the table is unchanged. */
  lemma GetOrCreateExisting<R>(t: Table<R>, key: R -> string, candidate: R, i: nat)
    requires i < |t.rows| && key(t.rows[i].data) == key(candidate)
    requires forall j :: 0 <= j < i ==> key(t.rows[j].data) != key(candidate)
    ensures GetOrCreate(t, key, candidate) == Inserted(t, t.rows[i].id)
  {
    FindIndexFirstMatch(t.rows, key, key(candidate), i);
  }

  /** A key not yet stored: exactly one row is appended and its new id returned. */
  lemma GetOrCreateMissing<R>(t: Table<R>, key: R -> string, candidate: R)
    requires forall i :: 0 <= i < |t.rows| ==> key(t.rows[i].data) != key(candidate)
    ensures GetOrCreate(t, key, candidate) == Insert(t, candidate)
  {
    FindIndexNone(t.rows, key, key(candidate));
  }

  /**
   * Asking again for the same key returns the same id and changes nothing,
   * whatever the other columns of the second request are.
   */
  lemma GetOrCreateIdempotent<R>(t: Table<R>, key: R -> string, candidate: R, again: R)
    requires key(again) == key(candidate)
    ensures var first := GetOrCreate(t, key, candidate);
            GetOrCreate(first.table, key, again) == first
  {
    var k := key(candidate);
    FindIndexAppend(t.rows, Row(t.lastId + 1, candidate), key, k);
  }

  /** Get-or-create never puts a second row with the same key into the table. */
  lemma GetOrCreateKeepsKeysUnique<R>(t: Table<R>, key: R -> string, candidate: R)
    requires UniqueKeys(t.rows, key)
    ensures UniqueKeys(GetOrCreate(t, key, candidate).table.rows, key)
  {
    FindIndexNone(t.rows, key, key(candidate));
  }

  /** Two requests with different keys, one after the other, get different ids. */
  lemma GetOrCreateDistinct<R>(t: Table<R>, key: R -> string, a: R, b: R)
    requires WellFormed(t)
    requires key(a) != key(b)
    ensures var first := GetOrCreate(t, key, a);
            GetOrCreate(first.table, key, b).id != first.id
  {
    var first := GetOrCreate(t, key, a);
    var second := GetOrCreate(first.table, key, b);
    var i :| 0 <= i < |first.table.rows| && first.table.rows[i].id == first.id && key(first.table.rows[i].data) == key(a);
    var j :| 0 <= j < |second.table.rows| && second.table.rows[j].id == second.id && key(second.table.rows[j].data) == key(b);
    if j < |first.table.rows| {
      assert second.table.rows[j] == first.table.rows[j];
      assert i != j;
    } else {
      assert forall m :: 0 <= m < |first.table.rows| ==> first.table.rows[m].id < second.id;
    }
  }

  // ---------------------------------------------------------------------------
  // The schema of init_database
  // ---------------------------------------------------------------------------

  /** A row of `servers`. */
  datatype Server = Server(name: string)

  /** A row of `channels`; `discordChannelId` holds the Discord channel id as text. */
  datatype Channel = Channel(serverId: nat, discordChannelId: string, name: string)

  /** A row of `users`; `discordUserId` holds the Discord user id as text and is UNIQUE. */
  datatype User = User(discordUserId: string, name: string)

  /** A row of `messages`. */
  datatype Message = Message(channelId: nat, userId: nat, content: string)

  /** A row of `attachments`; `attachmentId` holds the Discord attachment id as text. */
  datatype Attachment = Attachment(
    messageId: nat, attachmentId: string, filename: string, url: string,
    contentType: Option<string>, size: nat, height: Option<int>, width: Option<int>,
    description: Option<string>, ephemeral: bool, duration: Option<real>)

  /** The five tables of the bot's database. */
  datatype Tables = Tables(
    servers: Table<Server>, channels: Table<Channel>, users: Table<User>,
    messages: Table<Message>, attachments: Table<Attachment>)

  /** The column each get-or-create looks up. */
  function ServerName(s: Server): string { s.name }
  function ChannelKey(c: Channel): string { c.discordChannelId }
  function UserKey(u: User): string { u.discordUserId }

  /** A database with the five tables created and nothing stored. */
  function EmptyTables(): Tables {
    Tables(Table([], 0), Table([], 0), Table([], 0), Table([], 0), Table([], 0))
  }

  /** What SQLite itself guarantees of every stored database: AUTOINCREMENT ids and the UNIQUE user id. */
  predicate SchemaValid(db: Tables) {
    WellFormed(db.servers) && WellFormed(db.channels) && WellFormed(db.users)
    && WellFormed(db.messages) && WellFormed(db.attachments)
    && UniqueKeys(db.users.rows, UserKey)
  }

  /** No two servers with the same name and no two channels with the same Discord id; the schema does not enforce this. */
  predicate Deduplicated(db: Tables) {
    UniqueKeys(db.servers.rows, ServerName) && UniqueKeys(db.channels.rows, ChannelKey)
  }

  /** Every id stored in a REFERENCES column names an existing row; SQLite does not enforce this by default. */
  predicate Referential(db: Tables) {
    (forall i :: 0 <= i < |db.channels.rows| ==> HasId(db.servers, db.channels.rows[i].data.serverId))
    && (forall i :: 0 <= i < |db.messages.rows| ==> HasId(db.channels, db.messages.rows[i].data.channelId))
    && (forall i :: 0 <= i < |db.messages.rows| ==> HasId(db.users, db.messages.rows[i].data.userId))
    && (forall i :: 0 <= i < |db.attachments.rows| ==> HasId(db.messages, db.attachments.rows[i].data.messageId))
  }

  /** Every table of `before` is a prefix of the same table in `after`: rows are only appended. */
  predicate AppendOnly(before: Tables, after: Tables) {
    before.servers.rows <= after.servers.rows && before.channels.rows <= after.channels.rows
    && before.users.rows <= after.users.rows && before.messages.rows <= after.messages.rows
    && before.attachments.rows <= after.attachments.rows
  }

  // ---------------------------------------------------------------------------
  // The statements of SaaSBot
  // ---------------------------------------------------------------------------

  /** The tables after a step, and the id the step returned. */
  datatype Resolved = Resolved(db: Tables, id: nat)

  /** The placeholder server name `get_server_id` derives from a guild id. */
  function ServerNameFor(guildId: nat): string {
    "server-" + DecimalString(guildId)
  }

  /** Different guilds get different server names. */
  lemma ServerNameForInjective(a: nat, b: nat)
    requires ServerNameFor(a) == ServerNameFor(b)
    ensures a == b
  {
    var prefix := "server-";
    assert ServerNameFor(a)[|prefix|..] == DecimalString(a);
    assert ServerNameFor(b)[|prefix|..] == DecimalString(b);
    DecimalStringInjective(a, b);
  }

  /** `get_server_id`: the server named after the guild, created when missing. */
  function ResolveServer(db: Tables, guildId: nat): (r: Resolved)
    ensures r.db.(servers := db.servers) == db
    ensures HasKeyedRow(r.db.servers, r.id, ServerName, ServerNameFor(guildId))
  {
    var s := GetOrCreate(db.servers, ServerName, Server(ServerNameFor(guildId)));
    Resolved(db.(servers := s.table), s.id)
  }

  /** `get_or_create_channel`: looked up by the Discord channel id alone. */
  function ResolveChannel(db: Tables, serverId: nat, channelId: nat, name: string): (r: Resolved)
    ensures r.db.(channels := db.channels) == db
    ensures HasKeyedRow(r.db.channels, r.id, ChannelKey, DecimalString(channelId))
  {
    var c := GetOrCreate(db.channels, ChannelKey, Channel(serverId, DecimalString(channelId), name));
    Resolved(db.(channels := c.table), c.id)
  }

  /** `get_or_create_user`: looked up by the Discord user id. */
  function ResolveUser(db: Tables, userId: nat, name: string): (r: Resolved)
    ensures r.db.(users := db.users) == db
    ensures HasKeyedRow(r.db.users, r.id, UserKey, DecimalString(userId))
  {
    var u := GetOrCreate(db.users, UserKey, User(DecimalString(userId), name));
    Resolved(db.(users := u.table), u.id)
  }

  /** `store_message`: always one new row. */
  function AppendMessage(db: Tables, channelId: nat, userId: nat, content: string): (r: Resolved)
    ensures r.db.(messages := db.messages) == db
    ensures SchemaValid(db) ==> SchemaValid(r.db)
    ensures WellFormed(db.messages) ==> forall i :: 0 <= i < |db.messages.rows| ==> db.messages.rows[i].id < r.id
  {
    var m := Insert(db.messages, Message(channelId, userId, content));
    Resolved(db.(messages := m.table), m.id)
  }

  /** An attachment of a Discord message, with the fields the bot stores. */
  datatype DiscordAttachment = DiscordAttachment(
    id: nat, filename: string, url: string, contentType: Option<string>, size: nat,
    height: Option<int>, width: Option<int>, description: Option<string>,
    ephemeral: bool, duration: Option<real>)

  /** The `attachments` row for an attachment; the integer id lands in a TEXT column as its decimal text. */
  function AttachmentRecord(messageId: nat, a: DiscordAttachment): Attachment {
    Attachment(messageId, DecimalString(a.id), a.filename, a.url, a.contentType, a.size,
               a.height, a.width, a.description, a.ephemeral, a.duration)
  }

  /** `store_attachment`: always one new row. */
  function AppendAttachment(db: Tables, messageId: nat, a: DiscordAttachment): (r: Tables)
    ensures r.(attachments := db.attachments) == db
    ensures SchemaValid(db) ==> SchemaValid(r)
    ensures WellFormed(db.attachments) ==> forall i :: 0 <= i < |db.attachments.rows| ==> db.attachments.rows[i].id < r.attachments.lastId
  {
    db.(attachments := Insert(db.attachments, AttachmentRecord(messageId, a)).table)
  }

  /** The attachment rows of one message inserted one after the other into `attachments`. */
  function AttachmentsInserted(t: Table<Attachment>, messageId: nat, atts: seq<DiscordAttachment>): Table<Attachment> {
    if atts == [] then t
    else Insert(AttachmentsInserted(t, messageId, atts[..|atts| - 1]), AttachmentRecord(messageId, atts[|atts| - 1])).table
  }

  /** The loop of `on_message` storing every attachment of a message. */
  function AppendAttachments(db: Tables, messageId: nat, atts: seq<DiscordAttachment>): Tables {
    db.(attachments := AttachmentsInserted(db.attachments, messageId, atts))
  }

  /** The attachments table grows by one row and one id per attachment, and the earlier rows stay. */
  lemma {:induction false} AttachmentsInsertedGrows(t: Table<Attachment>, messageId: nat, atts: seq<DiscordAttachment>)
    ensures var r := AttachmentsInserted(t, messageId, atts);
            && r.lastId == t.lastId + |atts|
            && |r.rows| == |t.rows| + |atts|
            && r.rows[..|t.rows|] == t.rows
  {
    if atts != [] {
      AttachmentsInsertedGrows(t, messageId, atts[..|atts| - 1]);
    }
  }

  /**
   * The attachments of a message land at the end of the table, one row per
   * attachment in order, each referencing the message, with consecutive ids.
   */
  lemma {:induction false} AttachmentsInsertedRows(t: Table<Attachment>, messageId: nat, atts: seq<DiscordAttachment>)
    ensures var r := AttachmentsInserted(t, messageId, atts);
            |r.rows| == |t.rows| + |atts|
            && forall k :: 0 <= k < |atts| ==>
                 r.rows[|t.rows| + k] == Row(t.lastId + k + 1, AttachmentRecord(messageId, atts[k]))
  {
    if atts != [] {
      var n := |atts|;
      var a := |t.rows|;
      var prev := AttachmentsInserted(t, messageId, atts[..n - 1]);
      AttachmentsInsertedRows(t, messageId, atts[..n - 1]);
      AttachmentsInsertedGrows(t, messageId, atts[..n - 1]);
      var r := AttachmentsInserted(t, messageId, atts);
      assert r.rows == prev.rows + [Row(t.lastId + n, AttachmentRecord(messageId, atts[n - 1]))];
      forall k | 0 <= k < n
        ensures r.rows[a + k] == Row(t.lastId + k + 1, AttachmentRecord(messageId, atts[k]))
      {
        if k < n - 1 {
          assert atts[..n - 1][k] == atts[k];
        }
      }
    }
  }

  /** Storing attachments keeps the AUTOINCREMENT guarantees. */
  lemma {:induction false} AttachmentsInsertedWellFormed(t: Table<Attachment>, messageId: nat, atts: seq<DiscordAttachment>)
    requires WellFormed(t)
    ensures WellFormed(AttachmentsInserted(t, messageId, atts))
  {
    if atts != [] {
      AttachmentsInsertedWellFormed(t, messageId, atts[..|atts| - 1]);
    }
  }

  /** A message event as the bot sees it; `guildId` is None for a direct message. */
  datatype DiscordMessage = DiscordMessage(
    authorId: nat, authorName: string, guildId: Option<nat>,
    channelId: nat, channelName: string, content: string,
    attachments: seq<DiscordAttachment>)

  /** The steps `on_message` takes for a message from someone else in a guild. */
  function StoreGuildMessage(db: Tables, guildId: nat, msg: DiscordMessage): (r: Resolved) {
    var s := ResolveServer(db, guildId);
    var c := ResolveChannel(s.db, s.id, msg.channelId, msg.channelName);
    var u := ResolveUser(c.db, msg.authorId, msg.authorName);
    var m := AppendMessage(u.db, c.id, u.id, msg.content);
    Resolved(AppendAttachments(m.db, m.id, msg.attachments), m.id)
  }

  /**
   * `on_message`: the bot's own messages are ignored; a direct message has no
   * guild, so reading its id raises before anything is written.
   */
  function HandleMessage(db: Tables, botId: nat, msg: DiscordMessage): Tables {
    if msg.authorId == botId || msg.guildId.None? then db
    else StoreGuildMessage(db, msg.guildId.value, msg).db
  }

  // ---------------------------------------------------------------------------
  // Properties of the statements
  // ---------------------------------------------------------------------------

  /** Asking for the same guild's server twice creates at most one row and returns the same id. */
  lemma ResolveServerIdempotent(db: Tables, guildId: nat)
    ensures var first := ResolveServer(db, guildId);
            ResolveServer(first.db, guildId) == first
  {
    var name := ServerNameFor(guildId);
    GetOrCreateIdempotent(db.servers, ServerName, Server(name), Server(name));
  }

  /** Asking for the same channel twice returns the same id and leaves the stored server and name as they were. */
  lemma ResolveChannelIdempotent(db: Tables, serverId: nat, otherServerId: nat, channelId: nat, name: string, otherName: string)
    ensures var first := ResolveChannel(db, serverId, channelId, name);
            ResolveChannel(first.db, otherServerId, channelId, otherName) == first
  {
    var k := DecimalString(channelId);
    GetOrCreateIdempotent(db.channels, ChannelKey, Channel(serverId, k, name), Channel(otherServerId, k, otherName));
  }

  /** An existing channel is found by its Discord id whatever server id and name are passed. */
  lemma ResolveChannelIgnoresServer(db: Tables, serverId: nat, otherServerId: nat, channelId: nat, name: string, otherName: string)
    requires exists i :: 0 <= i < |db.channels.rows| && ChannelKey(db.channels.rows[i].data) == DecimalString(channelId)
    ensures ResolveChannel(db, serverId, channelId, name).db == db
    ensures ResolveChannel(db, serverId, channelId, name) == ResolveChannel(db, otherServerId, channelId, otherName)
  {
    FindIndexNone(db.channels.rows, ChannelKey, DecimalString(channelId));
  }

  /** Asking for the same user twice returns the same id; the stored name is not updated. */
  lemma ResolveUserIdempotent(db: Tables, userId: nat, name: string, otherName: string)
    ensures var first := ResolveUser(db, userId, name);
            ResolveUser(first.db, userId, otherName) == first
  {
    var k := DecimalString(userId);
    GetOrCreateIdempotent(db.users, UserKey, User(k, name), User(k, otherName));
  }

  /** A stored user is returned unchanged; an unknown one gets exactly one new row with a candidate id. */
  lemma ResolveUserCases(db: Tables, userId: nat, name: string)
    requires WellFormed(db.users)
    ensures var r := ResolveUser(db, userId, name);
            if exists i :: 0 <= i < |db.users.rows| && UserKey(db.users.rows[i].data) == DecimalString(userId)
            then r.db == db
            else r.db.users.rows == db.users.rows + [Row(r.id, User(DecimalString(userId), name))]
                 && forall i :: 0 <= i < |db.users.rows| ==> db.users.rows[i].id < r.id
  {
    FindIndexNone(db.users.rows, UserKey, DecimalString(userId));
  }

  /** Two different Discord users resolved one after the other get different row ids. */
  lemma ResolveUserDistinct(db: Tables, a: nat, b: nat, nameA: string, nameB: string)
    requires WellFormed(db.users)
    requires a != b
    ensures var first := ResolveUser(db, a, nameA);
            ResolveUser(first.db, b, nameB).id != first.id
  {
    if DecimalString(a) == DecimalString(b) {
      DecimalStringInjective(a, b);
    }
    GetOrCreateDistinct(db.users, UserKey, User(DecimalString(a), nameA), User(DecimalString(b), nameB));
  }

  /** A message from the bot itself leaves every table unchanged. */
  lemma BotMessageIgnored(db: Tables, botId: nat, msg: DiscordMessage)
    requires msg.authorId == botId
    ensures HandleMessage(db, botId, msg) == db
  {
  }

  /** Handling a message only ever appends rows. */
  lemma HandleMessageAppendOnly(db: Tables, botId: nat, msg: DiscordMessage)
    ensures AppendOnly(db, HandleMessage(db, botId, msg))
  {
    if msg.authorId != botId && msg.guildId.Some? {
      var s := ResolveServer(db, msg.guildId.value);
      var c := ResolveChannel(s.db, s.id, msg.channelId, msg.channelName);
      var u := ResolveUser(c.db, msg.authorId, msg.authorName);
      var m := AppendMessage(u.db, c.id, u.id, msg.content);
      AttachmentsInsertedGrows(m.db.attachments, m.id, msg.attachments);
    }
  }

  /** An id stays present while rows are only appended. */
  lemma HasIdGrows<R>(t: Table<R>, u: Table<R>, id: nat)
    requires t.rows <= u.rows && HasId(t, id)
    ensures HasId(u, id)
  {
    var i :| 0 <= i < |t.rows| && t.rows[i].id == id;
    assert u.rows[i] == t.rows[i];
  }

  /**
   * A message from someone else in a guild adds exactly one `messages` row,
   * carrying the content and referencing the channel and the author looked up
   * by their Discord ids.
   */
  lemma HandleMessageStoresMessage(db: Tables, botId: nat, msg: DiscordMessage)
    requires msg.authorId != botId && msg.guildId.Some?
    ensures var r := HandleMessage(db, botId, msg);
            var n := |db.messages.rows|;
            && |r.messages.rows| == n + 1
            && r.messages.rows[..n] == db.messages.rows
            && r.messages.rows[n].id == db.messages.lastId + 1
            && r.messages.rows[n].data.content == msg.content
            && HasKeyedRow(r.channels, r.messages.rows[n].data.channelId, ChannelKey, DecimalString(msg.channelId))
            && HasKeyedRow(r.users, r.messages.rows[n].data.userId, UserKey, DecimalString(msg.authorId))
  {
    var s := ResolveServer(db, msg.guildId.value);
    var c := ResolveChannel(s.db, s.id, msg.channelId, msg.channelName);
    var u := ResolveUser(c.db, msg.authorId, msg.authorName);
    var m := AppendMessage(u.db, c.id, u.id, msg.content);
    assert m.db.messages.rows == db.messages.rows + [Row(m.id, Message(c.id, u.id, msg.content))];
  }

  /**
   * A message from someone else in a guild adds one `attachments` row per
   * attachment, in order and with consecutive ids, each referencing the new
   * message's row.
   */
  lemma HandleMessageStoresAttachments(db: Tables, botId: nat, msg: DiscordMessage)
    requires msg.authorId != botId && msg.guildId.Some?
    ensures var r := HandleMessage(db, botId, msg);
            var n := |db.messages.rows|;
            var a := |db.attachments.rows|;
            && |r.messages.rows| == n + 1
            && |r.attachments.rows| == a + |msg.attachments|
            && r.attachments.rows[..a] == db.attachments.rows
            && forall k :: 0 <= k < |msg.attachments| ==>
                 r.attachments.rows[a + k]
                   == Row(db.attachments.lastId + k + 1, AttachmentRecord(r.messages.rows[n].id, msg.attachments[k]))
  {
    var s := ResolveServer(db, msg.guildId.value);
    var c := ResolveChannel(s.db, s.id, msg.channelId, msg.channelName);
    var u := ResolveUser(c.db, msg.authorId, msg.authorName);
    var m := AppendMessage(u.db, c.id, u.id, msg.content);
    assert m.db.messages.rows == db.messages.rows + [Row(m.id, Message(c.id, u.id, msg.content))];
    assert m.db.attachments == db.attachments;
    AttachmentsInsertedGrows(m.db.attachments, m.id, msg.attachments);
    AttachmentsInsertedRows(m.db.attachments, m.id, msg.attachments);
  }

  /** Handling a message keeps what SQLite guarantees: AUTOINCREMENT ids and unique user ids. */
  lemma HandleMessageKeepsSchema(db: Tables, botId: nat, msg: DiscordMessage)
    requires SchemaValid(db)
    ensures SchemaValid(HandleMessage(db, botId, msg))
  {
    if msg.authorId != botId && msg.guildId.Some? {
      var s := ResolveServer(db, msg.guildId.value);
      var c := ResolveChannel(s.db, s.id, msg.channelId, msg.channelName);
      GetOrCreateKeepsKeysUnique(c.db.users, UserKey, User(DecimalString(msg.authorId), msg.authorName));
      var u := ResolveUser(c.db, msg.authorId, msg.authorName);
      var m := AppendMessage(u.db, c.id, u.id, msg.content);
      AttachmentsInsertedWellFormed(m.db.attachments, m.id, msg.attachments);
    }
  }

  /** Handling a message never creates a second server for a guild or a second row for a channel. */
  lemma HandleMessageKeepsDeduplicated(db: Tables, botId: nat, msg: DiscordMessage)
    requires Deduplicated(db)
    ensures Deduplicated(HandleMessage(db, botId, msg))
  {
    if msg.authorId != botId && msg.guildId.Some? {
      GetOrCreateKeepsKeysUnique(db.servers, ServerName, Server(ServerNameFor(msg.guildId.value)));
      var s := ResolveServer(db, msg.guildId.value);
      GetOrCreateKeepsKeysUnique(s.db.channels, ChannelKey, Channel(s.id, DecimalString(msg.channelId), msg.channelName));
    }
  }

  /** Handling a message stores only references to rows that exist. */
  lemma HandleMessageKeepsReferential(db: Tables, botId: nat, msg: DiscordMessage)
    requires Referential(db)
    ensures Referential(HandleMessage(db, botId, msg))
  {
    if msg.authorId != botId && msg.guildId.Some? {
      var s := ResolveServer(db, msg.guildId.value);
      ReferentialServers(db, s.db, s.id);
      var c := ResolveChannel(s.db, s.id, msg.channelId, msg.channelName);
      ReferentialChannels(s.db, c.db, s.id, msg.channelId, msg.channelName);
      var u := ResolveUser(c.db, msg.authorId, msg.authorName);
      ReferentialUsers(c.db, u.db);
      var m := AppendMessage(u.db, c.id, u.id, msg.content);
      ReferentialMessage(u.db, m, c.id, u.id, msg.content);
      ReferentialAttachments(m.db, m.id, msg.attachments);
    }
  }

  /** A step that only appends to `servers` keeps every stored reference valid. */
  lemma ReferentialServers(db: Tables, after: Tables, id: nat)
    requires Referential(db)
    requires after.(servers := db.servers) == db && db.servers.rows <= after.servers.rows
    ensures Referential(after)
  {
    forall i | 0 <= i < |after.channels.rows|
      ensures HasId(after.servers, after.channels.rows[i].data.serverId)
    {
      HasIdGrows(db.servers, after.servers, after.channels.rows[i].data.serverId);
    }
  }

  /** A channel resolved for an existing server keeps every stored reference valid. */
  lemma ReferentialChannels(db: Tables, after: Tables, serverId: nat, channelId: nat, name: string)
    requires Referential(db) && HasId(db.servers, serverId)
    requires after == ResolveChannel(db, serverId, channelId, name).db
    ensures Referential(after)
  {
    forall i | 0 <= i < |after.channels.rows|
      ensures HasId(after.servers, after.channels.rows[i].data.serverId)
    {
      if i < |db.channels.rows| {
        assert after.channels.rows[i] == db.channels.rows[i];
      }
    }
    forall i | 0 <= i < |after.messages.rows|
      ensures HasId(after.channels, after.messages.rows[i].data.channelId)
    {
      HasIdGrows(db.channels, after.channels, after.messages.rows[i].data.channelId);
    }
  }

  /** A step that only appends to `users` keeps every stored reference valid. */
  lemma ReferentialUsers(db: Tables, after: Tables)
    requires Referential(db)
    requires after.(users := db.users) == db && db.users.rows <= after.users.rows
    ensures Referential(after)
  {
    forall i | 0 <= i < |after.messages.rows|
      ensures HasId(after.users, after.messages.rows[i].data.userId)
    {
      HasIdGrows(db.users, after.users, after.messages.rows[i].data.userId);
    }
  }

  /** A message stored for an existing channel and user keeps references valid, and its id then exists. */
  lemma ReferentialMessage(db: Tables, m: Resolved, channelId: nat, userId: nat, content: string)
    requires Referential(db) && HasId(db.channels, channelId) && HasId(db.users, userId)
    requires m == AppendMessage(db, channelId, userId, content)
    ensures Referential(m.db) && HasId(m.db.messages, m.id)
  {
    var n := |db.messages.rows|;
    assert m.db.messages.rows[n].id == m.id;
    forall i | 0 <= i < |m.db.attachments.rows|
      ensures HasId(m.db.messages, m.db.attachments.rows[i].data.messageId)
    {
      HasIdGrows(db.messages, m.db.messages, m.db.attachments.rows[i].data.messageId);
    }
  }

  /** Attachments stored for an existing message keep every stored reference valid. */
  lemma ReferentialAttachments(db: Tables, messageId: nat, atts: seq<DiscordAttachment>)
    requires Referential(db) && HasId(db.messages, messageId)
    ensures Referential(AppendAttachments(db, messageId, atts))
  {
    var r := AppendAttachments(db, messageId, atts);
    var t := AttachmentsInserted(db.attachments, messageId, atts);
    var a := |db.attachments.rows|;
    AttachmentsInsertedGrows(db.attachments, messageId, atts);
    AttachmentsInsertedRows(db.attachments, messageId, atts);
    assert r.attachments == t;
    forall i | 0 <= i < |t.rows|
      ensures HasId(r.messages, t.rows[i].data.messageId)
    {
      if i < a {
        assert t.rows[..a][i] == t.rows[i];
      } else {
        var k := i - a;
        assert t.rows[a + k] == Row(db.attachments.lastId + k + 1, AttachmentRecord(messageId, atts[k]));
      }
    }
  }

  /**
   * On a fresh database the first message from someone else in a guild creates
   * one server, one channel, one user and one message, each with id 1 and
   * linked to one another, and its attachments get ids 1, 2, ... in order.
   */
  lemma FirstMessage(botId: nat, msg: DiscordMessage)
    requires msg.authorId != botId && msg.guildId.Some?
    ensures var r := HandleMessage(EmptyTables(), botId, msg);
            && r.servers.rows == [Row(1, Server(ServerNameFor(msg.guildId.value)))]
            && r.channels.rows == [Row(1, Channel(1, DecimalString(msg.channelId), msg.channelName))]
            && r.users.rows == [Row(1, User(DecimalString(msg.authorId), msg.authorName))]
            && r.messages.rows == [Row(1, Message(1, 1, msg.content))]
            && |r.attachments.rows| == |msg.attachments|
            && forall k :: 0 <= k < |msg.attachments| ==>
                 r.attachments.rows[k] == Row(k + 1, AttachmentRecord(1, msg.attachments[k]))
  {
    var db := EmptyTables();
    var s := ResolveServer(db, msg.guildId.value);
    assert s.id == 1 && s.db.servers.rows == [Row(1, Server(ServerNameFor(msg.guildId.value)))];
    var c := ResolveChannel(s.db, s.id, msg.channelId, msg.channelName);
    assert c.id == 1 && c.db.servers == s.db.servers;
    var u := ResolveUser(c.db, msg.authorId, msg.authorName);
    assert u.id == 1 && u.db.channels == c.db.channels;
    var m := AppendMessage(u.db, c.id, u.id, msg.content);
    AttachmentsInsertedGrows(m.db.attachments, m.id, msg.attachments);
    AttachmentsInsertedRows(m.db.attachments, m.id, msg.attachments);
  }
}
