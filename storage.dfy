/** The persisted tables shared by the bot manager and the admin panel:
    which file holds which table, the shape of a loaded JSON document, the
    state of a file on disk, and the records the tables hold. */
module Storage {
  import opened Collections

  /** The JSON files under the data directory. */
  datatype DataFile = BotsFile | UsersFile | KeywordsFile | MessagesFile | DevicesFile | ScheduledTasksFile

  /** A loaded document: a JSON object (a `dict`) or a JSON array (a `list`). */
  datatype Doc<T> = Object(entries: Dict<string, T>) | Array(items: seq<T>)

  /** A file as the loader finds it. */
  datatype FileState<T> = Missing | Unreadable | Readable(doc: Doc<T>)

  /** `len(data)`, which works on a `dict` and on a `list` alike. */
  function Length<T>(d: Doc<T>): nat {
    match d
    case Object(e) => |e|
    case Array(a) => |a|
  }

  /** What loading a file gives: its document when it can be read, and the
      caller's default when it is missing or cannot be parsed. */
  function Load<T>(disk: FileState<T>, default: Doc<T>): Doc<T> {
    if disk.Readable? then disk.doc else default
  }

  /** `load_data` of the admin panel: a missing or unreadable file gives an
      empty mapping, except the task file, which gives an empty list. */
  function LoadData<T>(f: DataFile, disk: FileState<T>): (d: Doc<T>)
    ensures disk.Readable? ==> d == disk.doc
    ensures !disk.Readable? ==> Length(d) == 0 && (d.Array? <==> f == ScheduledTasksFile)
  {
    Load(disk, if f == ScheduledTasksFile then Array([]) else Object([]))
  }

  /** A document that was read from JSON: an object never repeats a key. */
  ghost predicate WellFormed<T>(disk: FileState<T>) {
    disk.Readable? && disk.doc.Object? ==> UniqueKeys(disk.doc.entries)
  }

  /** `bots.json`: token -> {name, added_at} */
  datatype BotInfo = BotInfo(name: string, addedAt: string)

  /** `users.json`: id -> {id, username, first_name, last_name, joined_at} */
  datatype UserRecord = UserRecord(id: int, username: Option<string>, firstName: string,
                                   lastName: Option<string>, joinedAt: string)

  /** `devices.json`: device id -> {name, description, added_at} */
  datatype DeviceInfo = DeviceInfo(name: string, description: string, addedAt: string)

  /** One element of `scheduled_tasks.json`; every field is the raw text the
      admin form submitted, hour and minute included. */
  datatype Task = Task(botToken: string, chatId: string, message: string,
                       hour: string, minute: string, createdAt: string)
}
