/** The table-editing handlers of the admin panel. Each POST handler loads
    one data file, changes the loaded document and saves it back. The
    routing, the login, the templates and the redirect that every handler
    ends with are not modelled. */
module WebAdmin {
  import opened Collections
  import opened Text
  import opened Storage

  /** `[g.strip() for g in field.split(',')]`, the group list of `add_keyword`:
      one group per comma-separated piece, so never an empty list. */
  function ParseGroups(field: string): (groups: seq<string>)
    ensures |groups| == Occurrences(field, ',') + 1
    ensures forall i :: 0 <= i < |groups| ==> groups[i] == Strip(Split(field, ',')[i])
    ensures forall i :: 0 <= i < |groups| ==> ',' !in groups[i]
  {
    var pieces := Split(field, ',');
    seq(|pieces|, i requires 0 <= i < |pieces| => Strip(pieces[i]))
  }

  /** No parsed group has whitespace left to strip. */
  lemma ParseGroupsStripped(field: string)
    ensures forall i :: 0 <= i < |ParseGroups(field)| ==> Strip(ParseGroups(field)[i]) == ParseGroups(field)[i]
  {
    var groups := ParseGroups(field);
    forall i | 0 <= i < |groups| ensures Strip(groups[i]) == groups[i] {
      StripIdempotent(Split(field, ',')[i]);
    }
  }

  /** A list of comma-free, already stripped groups, joined with commas, parses back to itself. */
  lemma ParseGroupsOfJoin(groups: seq<string>)
    requires |groups| > 0
    requires forall i :: 0 <= i < |groups| ==> ',' !in groups[i] && Strip(groups[i]) == groups[i]
    ensures ParseGroups(Join(groups, ',')) == groups
  {
    SplitJoin(groups, ',');
  }

  /** The counts `api_stats` reports. */
  datatype Stats = Stats(botCount: nat, userCount: nat, deviceCount: nat, taskCount: nat)

  /** The data files the panel edits, each as it lies on disk, and the list
      of saves made so far. */
  class AdminStore {
    var bots: FileState<BotInfo>
    var users: FileState<UserRecord>
    var keywords: FileState<seq<string>>
    var devices: FileState<DeviceInfo>
    var tasks: FileState<Task>
    var saved: seq<DataFile>

    /** Every file that can be read holds a proper JSON document. */
    ghost predicate Valid()
      reads this
    {
      WellFormed(bots) && WellFormed(users) && WellFormed(keywords) && WellFormed(devices) && WellFormed(tasks)
    }

    constructor (bots: FileState<BotInfo>, users: FileState<UserRecord>, keywords: FileState<seq<string>>,
                 devices: FileState<DeviceInfo>, tasks: FileState<Task>)
      requires WellFormed(bots) && WellFormed(users) && WellFormed(keywords) && WellFormed(devices) && WellFormed(tasks)
      ensures Valid()
      ensures this.bots == bots && this.users == users && this.keywords == keywords
      ensures this.devices == devices && this.tasks == tasks && saved == []
    {
      this.bots, this.users, this.keywords := bots, users, keywords;
      this.devices, this.tasks := devices, tasks;
      saved := [];
    }

    /** `add_bot`: the token's entry is set to the new name and time, every
        other bot is kept, and the file is saved. A bots file holding a list
        makes the key assignment raise, and nothing is saved. */
    method AddBot(token: string, name: string, now: string) returns (ok: bool)
      requires Valid()
      modifies this`bots, this`saved
      ensures Valid()
      ensures ok <==> LoadData(BotsFile, old(bots)).Object?
      ensures ok ==> bots == Readable(Object(Put(LoadData(BotsFile, old(bots)).entries, token, BotInfo(name, now))))
      ensures ok ==> Get(LoadData(BotsFile, bots).entries, token) == Some(BotInfo(name, now))
      ensures ok ==> forall t :: t != token ==>
                Get(LoadData(BotsFile, bots).entries, t) == Get(LoadData(BotsFile, old(bots)).entries, t)
      ensures ok ==> saved == old(saved) + [BotsFile]
      ensures !ok ==> bots == old(bots) && saved == old(saved)
    {
      var botsData := LoadData(BotsFile, bots);
      if !botsData.Object? {
        return false;
      }
      botsData := Object(Put(botsData.entries, token, BotInfo(name, now)));
      bots := Readable(botsData);
      saved := saved + [BotsFile];
      ok := true;
    }

    /** `delete_bot`: a present token is removed and the file saved;
        otherwise (a list never holds a token) nothing changes and nothing
        is saved. */
    method DeleteBot(token: string)
      requires Valid()
      modifies this`bots, this`saved
      ensures Valid()
      ensures var d := LoadData(BotsFile, old(bots));
        if d.Object? && HasKey(d.entries, token) then
          bots == Readable(Object(Remove(d.entries, token))) && saved == old(saved) + [BotsFile]
        else
          bots == old(bots) && saved == old(saved)
    {
      var botsData := LoadData(BotsFile, bots);
      if botsData.Object? && HasKey(botsData.entries, token) {
        bots := Readable(Object(Remove(botsData.entries, token)));
        saved := saved + [BotsFile];
      }
    }

    /** `add_keyword`: the keyword's group list becomes the parsed form
        field, replacing any earlier list in its place; every other keyword
        is kept. A keywords file holding a list makes the assignment raise. */
    method AddKeyword(keyword: string, groupsField: string) returns (ok: bool)
      requires Valid()
      modifies this`keywords, this`saved
      ensures Valid()
      ensures ok <==> LoadData(KeywordsFile, old(keywords)).Object?
      ensures ok ==> keywords == Readable(Object(Put(LoadData(KeywordsFile, old(keywords)).entries, keyword,
                                                     ParseGroups(groupsField))))
      ensures ok ==> Get(LoadData(KeywordsFile, keywords).entries, keyword) == Some(ParseGroups(groupsField))
      ensures ok ==> forall k :: k != keyword ==>
                Get(LoadData(KeywordsFile, keywords).entries, k) == Get(LoadData(KeywordsFile, old(keywords)).entries, k)
      ensures ok ==> saved == old(saved) + [KeywordsFile]
      ensures !ok ==> keywords == old(keywords) && saved == old(saved)
    {
      var targetGroups := ParseGroups(groupsField);
      var keywordsData := LoadData(KeywordsFile, keywords);
      if !keywordsData.Object? {
        return false;
      }
      keywordsData := Object(Put(keywordsData.entries, keyword, targetGroups));
      keywords := Readable(keywordsData);
      saved := saved + [KeywordsFile];
      ok := true;
    }

    /** `delete_keyword`: a present keyword is removed and the file saved;
        otherwise nothing changes and nothing is saved. */
    method DeleteKeyword(keyword: string)
      requires Valid()
      modifies this`keywords, this`saved
      ensures Valid()
      ensures var d := LoadData(KeywordsFile, old(keywords));
        if d.Object? && HasKey(d.entries, keyword) then
          keywords == Readable(Object(Remove(d.entries, keyword))) && saved == old(saved) + [KeywordsFile]
        else
          keywords == old(keywords) && saved == old(saved)
    {
      var keywordsData := LoadData(KeywordsFile, keywords);
      if keywordsData.Object? && HasKey(keywordsData.entries, keyword) {
        keywords := Readable(Object(Remove(keywordsData.entries, keyword)));
        saved := saved + [KeywordsFile];
      }
    }

    /** `add_device`: the device's entry is set, every other device is kept,
        and the file is saved; a list-shaped file makes the assignment raise. */
    method AddDevice(deviceId: string, name: string, description: string, now: string) returns (ok: bool)
      requires Valid()
      modifies this`devices, this`saved
      ensures Valid()
      ensures ok <==> LoadData(DevicesFile, old(devices)).Object?
      ensures ok ==> devices == Readable(Object(Put(LoadData(DevicesFile, old(devices)).entries, deviceId,
                                                    DeviceInfo(name, description, now))))
      ensures ok ==> Get(LoadData(DevicesFile, devices).entries, deviceId) == Some(DeviceInfo(name, description, now))
      ensures ok ==> forall d :: d != deviceId ==>
                Get(LoadData(DevicesFile, devices).entries, d) == Get(LoadData(DevicesFile, old(devices)).entries, d)
      ensures ok ==> saved == old(saved) + [DevicesFile]
      ensures !ok ==> devices == old(devices) && saved == old(saved)
    {
      var devicesData := LoadData(DevicesFile, devices);
      if !devicesData.Object? {
        return false;
      }
      devicesData := Object(Put(devicesData.entries, deviceId, DeviceInfo(name, description, now)));
      devices := Readable(devicesData);
      saved := saved + [DevicesFile];
      ok := true;
    }

    /** `delete_device`: a present device is removed and the file saved;
        otherwise nothing changes and nothing is saved. */
    method DeleteDevice(deviceId: string)
      requires Valid()
      modifies this`devices, this`saved
      ensures Valid()
      ensures var d := LoadData(DevicesFile, old(devices));
        if d.Object? && HasKey(d.entries, deviceId) then
          devices == Readable(Object(Remove(d.entries, deviceId))) && saved == old(saved) + [DevicesFile]
        else
          devices == old(devices) && saved == old(saved)
    {
      var devicesData := LoadData(DevicesFile, devices);
      if devicesData.Object? && HasKey(devicesData.entries, deviceId) {
        devices := Readable(Object(Remove(devicesData.entries, deviceId)));
        saved := saved + [DevicesFile];
      }
    }

    /** `add_task`: one task, holding the raw form fields, is appended after
        the existing ones, which stay as they were; a task file holding a
        mapping has no `append`, and nothing is saved. */
    method AddTask(botToken: string, chatId: string, message: string, hour: string, minute: string, now: string)
      returns (ok: bool)
      requires Valid()
      modifies this`tasks, this`saved
      ensures Valid()
      ensures ok <==> LoadData(ScheduledTasksFile, old(tasks)).Array?
      ensures ok ==> tasks == Readable(Array(LoadData(ScheduledTasksFile, old(tasks)).items
                                             + [Task(botToken, chatId, message, hour, minute, now)]))
      ensures ok ==> saved == old(saved) + [ScheduledTasksFile]
      ensures !ok ==> tasks == old(tasks) && saved == old(saved)
    {
      var tasksData := LoadData(ScheduledTasksFile, tasks);
      if !tasksData.Array? {
        return false;
      }
      var newTask := Task(botToken, chatId, message, hour, minute, now);
      tasksData := Array(tasksData.items + [newTask]);
      tasks := Readable(tasksData);
      saved := saved + [ScheduledTasksFile];
      ok := true;
    }

    /** `delete_task`: an index inside the list removes exactly that task and
        saves; any other index changes nothing. A task file holding a
        mapping has no integer keys, so deleting from it raises. */
    method DeleteTask(index: int) returns (ok: bool)
      requires Valid()
      modifies this`tasks, this`saved
      ensures Valid()
      ensures var d := LoadData(ScheduledTasksFile, old(tasks));
        if 0 <= index < Length(d) && d.Array? then
          ok && tasks == Readable(Array(RemoveAt(d.items, index))) && saved == old(saved) + [ScheduledTasksFile]
        else
          ok == !(0 <= index < Length(d)) && tasks == old(tasks) && saved == old(saved)
    {
      var tasksData := LoadData(ScheduledTasksFile, tasks);
      ok := true;
      if 0 <= index < Length(tasksData) {
        if !tasksData.Array? {
          return false;
        }
        tasks := Readable(Array(RemoveAt(tasksData.items, index)));
        saved := saved + [ScheduledTasksFile];
      }
    }

    /** `api_stats`: the number of entries of the bots, users, devices and
        task files, a missing or unreadable file counting as empty. */
    method ApiStats() returns (s: Stats)
      ensures s.botCount == Length(LoadData(BotsFile, bots))
      ensures s.userCount == Length(LoadData(UsersFile, users))
      ensures s.deviceCount == Length(LoadData(DevicesFile, devices))
      ensures s.taskCount == Length(LoadData(ScheduledTasksFile, tasks))
    {
      var botsData := LoadData(BotsFile, bots);
      var usersData := LoadData(UsersFile, users);
      var devicesData := LoadData(DevicesFile, devices);
      var tasksData := LoadData(ScheduledTasksFile, tasks);
      s := Stats(Length(botsData), Length(usersData), Length(devicesData), Length(tasksData));
    }
  }
}
