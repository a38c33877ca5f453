/** The inbound message router and the scheduled-send dispatch of the bot
    manager. Every network call becomes an action in the list a method
    returns; whether a forward, a send, the construction of a bot or the
    adding of a cron job succeeds is decided by an oracle parameter. */
module BotManager {
  import opened Collections
  import opened Text
  import opened Storage

  /** The sender of an inbound message, as the platform reports it. */
  datatype Sender = Sender(id: int, username: Option<string>, firstName: string, lastName: Option<string>)

  /** An inbound message: the chat it arrived in, its id there, its sender and its text, if any. */
  datatype Message = Message(chatId: int, messageId: int, from: Sender, text: Option<string>)

  /** What a failure entry in the log is about. */
  datatype Failure =
    | ForwardFailed(group: string)
    | SendFailed(chat: string)
    | UnknownBot(token: string)

  /** One observable step: a write of the users file, a call to the
      platform, or an error written to the log. */
  datatype Action =
    | SaveUsers
    | Forward(group: string, fromChat: int, messageId: int)
    | Reply(chat: int, text: string)
    | Send(chatId: string, message: string)
    | LogError(failure: Failure)

  /** A live bot session and the dispatcher that feeds it inbound messages. */
  datatype Bot = Bot(token: string)
  datatype Dispatcher = Dispatcher(bot: Bot)

  /** A cron job: at hour:minute every day, send `message` to `chatId` through `botToken`. */
  datatype Job = Job(hour: string, minute: string, botToken: string, chatId: string, message: string)

  // ---------------------------------------------------------------------
  // Loading the data files

  /** The default `_load_data` falls back to, as the code is written: a
      mapping for the users, keywords and messages files only. */
  function LoadDataAsWritten<T>(f: DataFile, disk: FileState<T>): (d: Doc<T>)
    ensures disk.Readable? ==> d == disk.doc
    ensures !disk.Readable? ==> Length(d) == 0 && (d.Object? <==> f in {UsersFile, KeywordsFile, MessagesFile})
  {
    Load(disk, if f in {UsersFile, KeywordsFile, MessagesFile} then Object([]) else Array([]))
  }

  /** As written, a missing or unreadable bots file loads as an empty list,
      which `_load_bots` cannot iterate as a mapping; the corrected loader,
      the admin panel's `LoadData`, gives the empty mapping. */
  lemma MissingBotsFileLoadsAsListAsWritten(disk: FileState<BotInfo>)
    requires !disk.Readable?
    ensures LoadDataAsWritten(BotsFile, disk) == Array([])
    ensures LoadData(BotsFile, disk) == Object([])
  {
  }

  // ---------------------------------------------------------------------
  // Recording the sender

  function NewUserRecord(s: Sender, now: string): UserRecord {
    UserRecord(s.id, s.username, s.firstName, s.lastName, now)
  }

  /** The users table after a message from `s`: a record is added only when
      the id is new, and no existing record changes. */
  function UpsertUser(users: map<int, UserRecord>, s: Sender, now: string): (r: map<int, UserRecord>)
    ensures r.Keys == users.Keys + {s.id}
    ensures forall id :: id in users ==> r[id] == users[id]
    ensures s.id !in users ==> r[s.id] == NewUserRecord(s, now)
  {
    if s.id in users then users else users[s.id := NewUserRecord(s, now)]
  }

  /** Two messages from the same id leave exactly the record the first one made. */
  lemma UpsertIdempotent(users: map<int, UserRecord>, s: Sender, s': Sender, now: string, now': string)
    requires s'.id == s.id
    ensures UpsertUser(UpsertUser(users, s, now), s', now') == UpsertUser(users, s, now)
    ensures |UpsertUser(UpsertUser(users, s, now), s', now')| == if s.id in users then |users| else |users| + 1
  {
    var once := UpsertUser(users, s, now);
    if s.id !in users {
      assert once.Keys == users.Keys + {s.id};
      assert |once.Keys| == |users.Keys| + 1;
    }
  }

  // ---------------------------------------------------------------------
  // Routing by keyword

  const SettlementKeyword: string := "结算查询"
  const SettlementLine1: string := "您的待结算余额为: ¥1,234.56"
  const SettlementLine2: string := "上次结算日期: 2023-05-15"
  const SettlementLine3: string := "结算周期: 2023-05-01至2023-05-15"
  /** The fixed text `_handle_settlement_query` answers with. */
  const SettlementReply: string := SettlementLine1 + "\n" + SettlementLine2 + "\n" + SettlementLine3

  /** The settlement answer is exactly three lines. */
  lemma SettlementReplyHasThreeLines()
    ensures Split(SettlementReply, '\n') == [SettlementLine1, SettlementLine2, SettlementLine3]
  {
    var lines := [SettlementLine1, SettlementLine2, SettlementLine3];
    assert lines[1..] == [SettlementLine2, SettlementLine3];
    assert lines[1..][1..] == [SettlementLine3];
    assert Join(lines[1..], '\n') == SettlementLine2 + "\n" + SettlementLine3;
    assert Join(lines, '\n') == SettlementReply;
    SplitJoin(lines, '\n');
  }

  /** `_handle_settlement_query`: the fixed answer, on the chat the query
      came from, three lines long. */
  function SettlementAnswer(msg: Message): (r: Action)
    ensures r.Reply? && r.chat == msg.chatId
    ensures Split(r.text, '\n') == [SettlementLine1, SettlementLine2, SettlementLine3]
  {
    SettlementReplyHasThreeLines();
    Reply(msg.chatId, SettlementReply)
  }

  /** `if message.text:` holds: there is a text and it is not empty. */
  predicate HasText(msg: Message) {
    msg.text.Some? && msg.text.value != ""
  }

  /** The entry of the keyword table that acts on `text`: the first one, in
      table order, whose keyword occurs in the text. */
  function FirstMatch(keywords: Dict<string, seq<string>>, text: string): (r: Option<nat>)
    ensures r.Some? ==> r.value < |keywords| && IsSubstring(keywords[r.value].0, text)
    ensures r.Some? ==> forall j :: 0 <= j < r.value ==> !IsSubstring(keywords[j].0, text)
    ensures r.None? <==> forall j :: 0 <= j < |keywords| ==> !IsSubstring(keywords[j].0, text)
  {
    FirstWhere(keywords, (e: (string, seq<string>)) => IsSubstring(e.0, text))
  }

  /** `a` is something the router may do about `msg`: forward the original
      message unmodified, log a failed forward, or give the settlement answer
      on the message's chat. */
  predicate Responds(a: Action, msg: Message) {
    || (a.Forward? && a.fromChat == msg.chatId && a.messageId == msg.messageId)
    || (a.LogError? && a.failure.ForwardFailed?)
    || a == Reply(msg.chatId, SettlementReply)
  }

  /** One attempt to forward the message to `group`. Without a registered
      bot the lookup fails inside the `try`, so only the error is logged. */
  function ForwardOne(group: string, registered: bool, msg: Message, delivered: string -> bool): (r: seq<Action>)
    ensures forall a :: a in r ==> a == Forward(group, msg.chatId, msg.messageId) || a == LogError(ForwardFailed(group))
    ensures Forward(group, msg.chatId, msg.messageId) in r <==> registered
    ensures LogError(ForwardFailed(group)) in r <==> !registered || !delivered(group)
  {
    if !registered then [LogError(ForwardFailed(group))]
    else if delivered(group) then [Forward(group, msg.chatId, msg.messageId)]
    else [Forward(group, msg.chatId, msg.messageId), LogError(ForwardFailed(group))]
  }

  /** The attempts for every group of the list, in list order: at least one
      action per group, each a forward of the original message to one of
      the groups or the logged failure of one. */
  function ForwardAll(groups: seq<string>, registered: bool, msg: Message, delivered: string -> bool): (r: seq<Action>)
    ensures |r| >= |groups|
  {
    if |groups| == 0 then []
    else ForwardAll(groups[..|groups| - 1], registered, msg, delivered) + ForwardOne(groups[|groups| - 1], registered, msg, delivered)
  }

  /** Every action of `ForwardAll` is a forward of the original message to
      one of the groups or the logged failure of one. */
  lemma {:induction false} ForwardAllShape(groups: seq<string>, registered: bool, msg: Message, delivered: string -> bool)
    ensures var r := ForwardAll(groups, registered, msg, delivered);
      && (forall a :: a in r ==> a.Forward? || a.LogError?)
      && (forall a :: a in r && a.Forward? ==> a.group in groups && a.fromChat == msg.chatId && a.messageId == msg.messageId)
      && (forall a :: a in r && a.LogError? ==> a.failure.ForwardFailed? && a.failure.group in groups)
    decreases |groups|
  {
    if |groups| > 0 {
      var init := groups[..|groups| - 1];
      assert forall g :: g in init ==> g in groups;
      ForwardAllShape(init, registered, msg, delivered);
    }
  }

  lemma ForwardAllStep(groups: seq<string>, k: nat, registered: bool, msg: Message, delivered: string -> bool)
    requires k < |groups|
    ensures ForwardAll(groups[..k + 1], registered, msg, delivered)
         == ForwardAll(groups[..k], registered, msg, delivered) + ForwardOne(groups[k], registered, msg, delivered)
  {
    assert groups[..k + 1][..k] == groups[..k];
  }

  /** What the acting keyword does: the reserved keyword answers, and only
      it; any other forwards. */
  function Fire(keyword: string, groups: seq<string>, registered: bool, msg: Message,
                delivered: string -> bool): (r: seq<Action>)
    ensures forall a :: a in r ==> Responds(a, msg)
    ensures Reply(msg.chatId, SettlementReply) in r <==> keyword == SettlementKeyword
  {
    if keyword == SettlementKeyword then [SettlementAnswer(msg)]
    else
      var acts := ForwardAll(groups, registered, msg, delivered);
      ForwardAllShape(groups, registered, msg, delivered);
      assert forall a :: a in acts ==> a.Forward? || a.LogError?;
      assert forall a :: a in acts ==> Responds(a, msg);
      var reply := Reply(msg.chatId, SettlementReply);
      assert reply in acts ==> reply.Forward? || reply.LogError?;
      acts
  }

  /** What the keyword scan of `_process_message` does with a message:
      something only when the message has a text in which some keyword
      occurs, and then only forwards of that message, their failures, or
      the settlement answer on its chat. */
  function RouteActions(keywords: Dict<string, seq<string>>, registered: bool, msg: Message,
                        delivered: string -> bool): (r: seq<Action>)
    ensures r != [] ==> HasText(msg) && exists j :: 0 <= j < |keywords| && IsSubstring(keywords[j].0, msg.text.value)
    ensures forall a :: a in r ==> Responds(a, msg)
  {
    if !HasText(msg) then []
    else
      match FirstMatch(keywords, msg.text.value)
      case None => []
      case Some(i) => Fire(keywords[i].0, keywords[i].1, registered, msg, delivered)
  }

  /** The groups a list of actions forwards to, in order. */
  function Forwarded(acts: seq<Action>): seq<string> {
    if |acts| == 0 then []
    else Forwarded(acts[..|acts| - 1]) + (if acts[|acts| - 1].Forward? then [acts[|acts| - 1].group] else [])
  }

  /** The texts a list of actions replies with, in order. */
  function Replied(acts: seq<Action>): seq<string> {
    if |acts| == 0 then []
    else Replied(acts[..|acts| - 1]) + (if acts[|acts| - 1].Reply? then [acts[|acts| - 1].text] else [])
  }

  /** The groups whose forward is logged as failed, in order. */
  function FailedForwards(acts: seq<Action>): seq<string> {
    if |acts| == 0 then []
    else
      var a := acts[|acts| - 1];
      FailedForwards(acts[..|acts| - 1]) + (if a.LogError? && a.failure.ForwardFailed? then [a.failure.group] else [])
  }

  /** The groups of the list the oracle rejects, in order. */
  function Undelivered(groups: seq<string>, delivered: string -> bool): seq<string> {
    if |groups| == 0 then []
    else Undelivered(groups[..|groups| - 1], delivered) + (if delivered(groups[|groups| - 1]) then [] else [groups[|groups| - 1]])
  }

  lemma {:induction false} ForwardedAppend(a: seq<Action>, b: seq<Action>)
    ensures Forwarded(a + b) == Forwarded(a) + Forwarded(b)
    decreases |b|
  {
    if |b| > 0 {
      var b' := b[..|b| - 1];
      assert (a + b)[..|a + b| - 1] == a + b';
      ForwardedAppend(a, b');
    } else {
      assert a + b == a;
    }
  }

  lemma {:induction false} RepliedAppend(a: seq<Action>, b: seq<Action>)
    ensures Replied(a + b) == Replied(a) + Replied(b)
    decreases |b|
  {
    if |b| > 0 {
      var b' := b[..|b| - 1];
      assert (a + b)[..|a + b| - 1] == a + b';
      RepliedAppend(a, b');
    } else {
      assert a + b == a;
    }
  }

  lemma {:induction false} FailedForwardsAppend(a: seq<Action>, b: seq<Action>)
    ensures FailedForwards(a + b) == FailedForwards(a) + FailedForwards(b)
    decreases |b|
  {
    if |b| > 0 {
      var b' := b[..|b| - 1];
      assert (a + b)[..|a + b| - 1] == a + b';
      FailedForwardsAppend(a, b');
    } else {
      assert a + b == a;
    }
  }

  /** Forwarding to `g1 + g2` is forwarding to `g1` and then to `g2`: what
      happens to one destination has no effect on the others. */
  lemma {:induction false} ForwardAllAppend(g1: seq<string>, g2: seq<string>, registered: bool, msg: Message,
                                            delivered: string -> bool)
    ensures ForwardAll(g1 + g2, registered, msg, delivered)
         == ForwardAll(g1, registered, msg, delivered) + ForwardAll(g2, registered, msg, delivered)
    decreases |g2|
  {
    if |g2| > 0 {
      var g2' := g2[..|g2| - 1];
      assert (g1 + g2)[..|g1 + g2| - 1] == g1 + g2';
      ForwardAllAppend(g1, g2', registered, msg, delivered);
    } else {
      assert g1 + g2 == g1;
    }
  }

  /** What one attempt contributes to each projection. */
  lemma ForwardOneProjections(g: string, registered: bool, msg: Message, delivered: string -> bool)
    ensures var one := ForwardOne(g, registered, msg, delivered);
      && Forwarded(one) == (if registered then [g] else [])
      && FailedForwards(one) == (if !registered || !delivered(g) then [g] else [])
      && Replied(one) == []
  {
    var fw: seq<Action> := [Forward(g, msg.chatId, msg.messageId)];
    var err: seq<Action> := [LogError(ForwardFailed(g))];
    assert fw[..0] == [] && err[..0] == [];
    assert Forwarded(fw) == [g] && FailedForwards(fw) == [] && Replied(fw) == [];
    assert Forwarded(err) == [] && FailedForwards(err) == [g] && Replied(err) == [];
    if registered && !delivered(g) {
      assert ForwardOne(g, registered, msg, delivered) == fw + err;
      ForwardedAppend(fw, err);
      FailedForwardsAppend(fw, err);
      RepliedAppend(fw, err);
    }
  }

  lemma {:induction false} ForwardAllForwarded(groups: seq<string>, msg: Message, delivered: string -> bool)
    ensures Forwarded(ForwardAll(groups, true, msg, delivered)) == groups
    decreases |groups|
  {
    if |groups| > 0 {
      var init := groups[..|groups| - 1];
      var g := groups[|groups| - 1];
      var before := ForwardAll(init, true, msg, delivered);
      var one := ForwardOne(g, true, msg, delivered);
      assert Forwarded(ForwardAll(groups, true, msg, delivered)) == Forwarded(before) + Forwarded(one) by {
        assert ForwardAll(groups, true, msg, delivered) == before + one;
        ForwardedAppend(before, one);
      }
      assert Forwarded(before) == init by { ForwardAllForwarded(init, msg, delivered); }
      assert Forwarded(one) == [g] by { ForwardOneProjections(g, true, msg, delivered); }
      assert init + [g] == groups;
    }
  }

  lemma {:induction false} ForwardAllForwardedNothing(groups: seq<string>, msg: Message, delivered: string -> bool)
    ensures Forwarded(ForwardAll(groups, false, msg, delivered)) == []
    decreases |groups|
  {
    if |groups| > 0 {
      var init := groups[..|groups| - 1];
      var g := groups[|groups| - 1];
      var before := ForwardAll(init, false, msg, delivered);
      var one := ForwardOne(g, false, msg, delivered);
      assert Forwarded(ForwardAll(groups, false, msg, delivered)) == Forwarded(before) + Forwarded(one) by {
        assert ForwardAll(groups, false, msg, delivered) == before + one;
        ForwardedAppend(before, one);
      }
      assert Forwarded(before) == [] by { ForwardAllForwardedNothing(init, msg, delivered); }
      assert Forwarded(one) == [] by { ForwardOneProjections(g, false, msg, delivered); }
    }
  }

  lemma {:induction false} ForwardAllFailedRegistered(groups: seq<string>, msg: Message, delivered: string -> bool)
    ensures FailedForwards(ForwardAll(groups, true, msg, delivered)) == Undelivered(groups, delivered)
    decreases |groups|
  {
    if |groups| > 0 {
      var init := groups[..|groups| - 1];
      var g := groups[|groups| - 1];
      var before := ForwardAll(init, true, msg, delivered);
      var one := ForwardOne(g, true, msg, delivered);
      assert FailedForwards(ForwardAll(groups, true, msg, delivered)) == FailedForwards(before) + FailedForwards(one) by {
        assert ForwardAll(groups, true, msg, delivered) == before + one;
        FailedForwardsAppend(before, one);
      }
      assert FailedForwards(before) == Undelivered(init, delivered) by {
        ForwardAllFailedRegistered(init, msg, delivered);
      }
      assert FailedForwards(one) == (if delivered(g) then [] else [g]) by {
        ForwardOneProjections(g, true, msg, delivered);
      }
    }
  }

  lemma {:induction false} ForwardAllFailedUnregistered(groups: seq<string>, msg: Message, delivered: string -> bool)
    ensures FailedForwards(ForwardAll(groups, false, msg, delivered)) == groups
    decreases |groups|
  {
    if |groups| > 0 {
      var init := groups[..|groups| - 1];
      var g := groups[|groups| - 1];
      var before := ForwardAll(init, false, msg, delivered);
      var one := ForwardOne(g, false, msg, delivered);
      assert FailedForwards(ForwardAll(groups, false, msg, delivered)) == FailedForwards(before) + FailedForwards(one) by {
        assert ForwardAll(groups, false, msg, delivered) == before + one;
        FailedForwardsAppend(before, one);
      }
      assert FailedForwards(before) == init by { ForwardAllFailedUnregistered(init, msg, delivered); }
      assert FailedForwards(one) == [g] by { ForwardOneProjections(g, false, msg, delivered); }
      assert init + [g] == groups;
    }
  }

  lemma {:induction false} ForwardAllReplied(groups: seq<string>, registered: bool, msg: Message,
                                             delivered: string -> bool)
    ensures Replied(ForwardAll(groups, registered, msg, delivered)) == []
    decreases |groups|
  {
    if |groups| > 0 {
      var init := groups[..|groups| - 1];
      var g := groups[|groups| - 1];
      ForwardAllReplied(init, registered, msg, delivered);
      ForwardOneProjections(g, registered, msg, delivered);
      RepliedAppend(ForwardAll(init, registered, msg, delivered), ForwardOne(g, registered, msg, delivered));
    }
  }

  /** With the bot registered, a forward is attempted to every group, in
      list order, whatever happens to the others; exactly the groups whose
      forward fails are logged, and nothing is replied. Without it, no
      forward reaches the platform and every group is logged as failed. */
  lemma ForwardAllAttemptsEveryGroup(groups: seq<string>, registered: bool, msg: Message, delivered: string -> bool)
    ensures var acts := ForwardAll(groups, registered, msg, delivered);
      && Forwarded(acts) == (if registered then groups else [])
      && FailedForwards(acts) == (if registered then Undelivered(groups, delivered) else groups)
      && Replied(acts) == []
      && (forall a :: a in acts && a.Forward? ==> a.fromChat == msg.chatId && a.messageId == msg.messageId)
  {
    ForwardAllShape(groups, registered, msg, delivered);
    if registered {
      ForwardAllForwarded(groups, msg, delivered);
      ForwardAllFailedRegistered(groups, msg, delivered);
    } else {
      ForwardAllForwardedNothing(groups, msg, delivered);
      ForwardAllFailedUnregistered(groups, msg, delivered);
    }
    ForwardAllReplied(groups, registered, msg, delivered);
  }

  /** No text, or no keyword occurring in it: nothing is forwarded and nothing is answered. */
  lemma RouteNoMatch(keywords: Dict<string, seq<string>>, registered: bool, msg: Message, delivered: string -> bool)
    requires !HasText(msg) || forall j :: 0 <= j < |keywords| ==> !IsSubstring(keywords[j].0, msg.text.value)
    ensures RouteActions(keywords, registered, msg, delivered) == []
  {
  }

  /** The acting keyword is the first one, in table order, that occurs in
      the text; the keywords after it are not looked at. */
  lemma RouteFirstMatch(keywords: Dict<string, seq<string>>, registered: bool, msg: Message,
                        delivered: string -> bool, i: nat)
    requires HasText(msg) && i < |keywords| && IsSubstring(keywords[i].0, msg.text.value)
    requires forall j :: 0 <= j < i ==> !IsSubstring(keywords[j].0, msg.text.value)
    ensures RouteActions(keywords, registered, msg, delivered)
         == Fire(keywords[i].0, keywords[i].1, registered, msg, delivered)
  {
  }

  /** When the reserved keyword is the first match, exactly one answer with
      the fixed text is sent, on the query's chat, and nothing is forwarded. */
  lemma RouteSettlement(keywords: Dict<string, seq<string>>, registered: bool, msg: Message,
                        delivered: string -> bool, i: nat)
    requires HasText(msg) && i < |keywords| && keywords[i].0 == SettlementKeyword
    requires IsSubstring(SettlementKeyword, msg.text.value)
    requires forall j :: 0 <= j < i ==> !IsSubstring(keywords[j].0, msg.text.value)
    ensures RouteActions(keywords, registered, msg, delivered) == [Reply(msg.chatId, SettlementReply)]
  {
    RouteFirstMatch(keywords, registered, msg, delivered, i);
  }

  /** When any other keyword is the first match, every one of its groups is
      tried in list order and nothing is answered. */
  lemma RouteForwards(keywords: Dict<string, seq<string>>, msg: Message, delivered: string -> bool, i: nat)
    requires HasText(msg) && i < |keywords| && keywords[i].0 != SettlementKeyword
    requires IsSubstring(keywords[i].0, msg.text.value)
    requires forall j :: 0 <= j < i ==> !IsSubstring(keywords[j].0, msg.text.value)
    ensures Forwarded(RouteActions(keywords, true, msg, delivered)) == keywords[i].1
    ensures FailedForwards(RouteActions(keywords, true, msg, delivered)) == Undelivered(keywords[i].1, delivered)
    ensures Replied(RouteActions(keywords, true, msg, delivered)) == []
  {
    RouteFirstMatch(keywords, true, msg, delivered, i);
    ForwardAllAttemptsEveryGroup(keywords[i].1, true, msg, delivered);
  }

  /** At most one keyword acts on a message: an answer and a forward never
      both happen, there is at most one answer, and there is one exactly
      when the reserved keyword is the first match. */
  lemma AtMostOneKeywordActs(keywords: Dict<string, seq<string>>, registered: bool, msg: Message,
                             delivered: string -> bool)
    ensures var acts := RouteActions(keywords, registered, msg, delivered);
      && |Replied(acts)| <= 1
      && (Replied(acts) != [] ==> Forwarded(acts) == [])
      && (Replied(acts) != [] <==>
            HasText(msg) && FirstMatch(keywords, msg.text.value).Some?
            && keywords[FirstMatch(keywords, msg.text.value).value].0 == SettlementKeyword)
  {
    if HasText(msg) && FirstMatch(keywords, msg.text.value).Some? {
      var i := FirstMatch(keywords, msg.text.value).value;
      if keywords[i].0 == SettlementKeyword {
        assert Replied([SettlementAnswer(msg)]) == [SettlementReply] by {
          assert [SettlementAnswer(msg)][..0] == [];
        }
        assert Forwarded([SettlementAnswer(msg)]) == [] by {
          assert [SettlementAnswer(msg)][..0] == [];
        }
      } else {
        ForwardAllAttemptsEveryGroup(keywords[i].1, registered, msg, delivered);
      }
    }
  }

  /** Keyword `a` placed before `a + b` in the table wins on every text that
      holds `a + b`: the scan picks the first match, not the longest one. */
  lemma FirstMatchNotLongest(keywords: Dict<string, seq<string>>, text: string, a: string, b: string, i: nat, j: nat)
    requires i < j < |keywords| && keywords[i].0 == a && keywords[j].0 == a + b
    requires IsSubstring(a + b, text)
    ensures FirstMatch(keywords, text).Some? && FirstMatch(keywords, text).value <= i
  {
    PrefixOfSubstring(a, b, text);
  }

  // ---------------------------------------------------------------------
  // Scheduled tasks

  function JobFor(t: Task): Job {
    Job(t.hour, t.minute, t.botToken, t.chatId, t.message)
  }

  /** The jobs `_start_scheduler` adds: one per task the scheduler accepts, in task order. */
  function AddedJobs(tasks: seq<Task>, accepts: Task -> bool): (r: seq<Job>)
    ensures |r| + |RejectedTasks(tasks, accepts)| == |tasks|
  {
    if |tasks| == 0 then []
    else AddedJobs(tasks[..|tasks| - 1], accepts) + (if accepts(tasks[|tasks| - 1]) then [JobFor(tasks[|tasks| - 1])] else [])
  }

  /** The tasks whose job could not be added, in task order. */
  function RejectedTasks(tasks: seq<Task>, accepts: Task -> bool): (r: seq<Task>)
    ensures |r| <= |tasks|
  {
    if |tasks| == 0 then []
    else RejectedTasks(tasks[..|tasks| - 1], accepts) + (if accepts(tasks[|tasks| - 1]) then [] else [tasks[|tasks| - 1]])
  }

  /** A task is reported as failed exactly when it is one of the tasks and
      the scheduler rejects it. */
  lemma {:induction false} RejectedTasksIff(tasks: seq<Task>, accepts: Task -> bool, t: Task)
    ensures t in RejectedTasks(tasks, accepts) <==> t in tasks && !accepts(t)
    decreases |tasks|
  {
    if |tasks| > 0 {
      var init := tasks[..|tasks| - 1];
      RejectedTasksIff(init, accepts, t);
      assert tasks == init + [tasks[|tasks| - 1]];
    }
  }

  lemma {:induction false} AddedJobsAppend(a: seq<Task>, b: seq<Task>, accepts: Task -> bool)
    ensures AddedJobs(a + b, accepts) == AddedJobs(a, accepts) + AddedJobs(b, accepts)
    decreases |b|
  {
    if |b| > 0 {
      var b' := b[..|b| - 1];
      assert (a + b)[..|a + b| - 1] == a + b';
      AddedJobsAppend(a, b', accepts);
    } else {
      assert a + b == a;
    }
  }

  /** A task whose job cannot be added is skipped and every other task still gets its job. */
  lemma RejectedTaskIsSkipped(before: seq<Task>, t: Task, after: seq<Task>, accepts: Task -> bool)
    requires !accepts(t)
    ensures AddedJobs(before + [t] + after, accepts) == AddedJobs(before, accepts) + AddedJobs(after, accepts)
  {
    AddedJobsAppend(before + [t], after, accepts);
    assert (before + [t])[..|before|] == before;
    assert AddedJobs(before + [t], accepts) == AddedJobs(before, accepts);
  }

  /** When every task is accepted, job `k` is the job of task `k`. */
  lemma {:induction false} AllTasksScheduled(tasks: seq<Task>, accepts: Task -> bool)
    requires forall k :: 0 <= k < |tasks| ==> accepts(tasks[k])
    ensures |AddedJobs(tasks, accepts)| == |tasks|
    ensures forall k :: 0 <= k < |tasks| ==> AddedJobs(tasks, accepts)[k] == JobFor(tasks[k])
    decreases |tasks|
  {
    if |tasks| > 0 {
      AllTasksScheduled(tasks[..|tasks| - 1], accepts);
    }
  }

  /** One more task adds its job or itself to exactly one of the two outcomes. */
  lemma ScheduleStep(tasks: seq<Task>, accepts: Task -> bool, i: nat)
    requires i < |tasks|
    ensures AddedJobs(tasks[..i + 1], accepts)
         == AddedJobs(tasks[..i], accepts) + (if accepts(tasks[i]) then [JobFor(tasks[i])] else [])
    ensures RejectedTasks(tasks[..i + 1], accepts)
         == RejectedTasks(tasks[..i], accepts) + (if accepts(tasks[i]) then [] else [tasks[i]])
  {
    assert tasks[..i + 1][..i] == tasks[..i];
  }

  // ---------------------------------------------------------------------
  // Bot registration

  /** The tokens of the bots file whose bot can be constructed. */
  function Opened(entries: Dict<string, BotInfo>, opens: string -> bool): set<string> {
    if |entries| == 0 then {}
    else Opened(entries[..|entries| - 1], opens) + (if opens(entries[|entries| - 1].0) then {entries[|entries| - 1].0} else {})
  }

  /** The tokens of the bots file whose bot cannot be constructed, in file order. */
  function Refused(entries: Dict<string, BotInfo>, opens: string -> bool): (r: seq<string>)
    ensures |r| <= |entries|
  {
    if |entries| == 0 then []
    else Refused(entries[..|entries| - 1], opens) + (if opens(entries[|entries| - 1].0) then [] else [entries[|entries| - 1].0])
  }

  /** A bot's registration depends on its own token only: an entry is
      registered exactly when it can be constructed, whatever the others do. */
  lemma {:induction false} OpenedIff(entries: Dict<string, BotInfo>, opens: string -> bool, token: string)
    ensures token in Opened(entries, opens) <==> opens(token) && exists k :: 0 <= k < |entries| && entries[k].0 == token
    decreases |entries|
  {
    if |entries| > 0 {
      var init := entries[..|entries| - 1];
      OpenedIff(init, opens, token);
      if exists k :: 0 <= k < |entries| && entries[k].0 == token {
        var k :| 0 <= k < |entries| && entries[k].0 == token;
        if k < |entries| - 1 { assert init[k].0 == token; }
      }
    }
  }

  /** A token is reported as failed exactly when it is a key of the bots
      file whose bot cannot be constructed. */
  lemma {:induction false} RefusedIff(entries: Dict<string, BotInfo>, opens: string -> bool, token: string)
    ensures token in Refused(entries, opens) <==> !opens(token) && exists k :: 0 <= k < |entries| && entries[k].0 == token
    decreases |entries|
  {
    if |entries| > 0 {
      var init := entries[..|entries| - 1];
      RefusedIff(init, opens, token);
      if exists k :: 0 <= k < |entries| && entries[k].0 == token {
        var k :| 0 <= k < |entries| && entries[k].0 == token;
        if k < |entries| - 1 { assert init[k].0 == token; }
      }
    }
  }

  /** One more entry of the bots file adds its token to exactly one of the two outcomes. */
  lemma RegistrationStep(entries: Dict<string, BotInfo>, opens: string -> bool, i: nat)
    requires i < |entries|
    ensures Opened(entries[..i + 1], opens)
         == Opened(entries[..i], opens) + (if opens(entries[i].0) then {entries[i].0} else {})
    ensures Refused(entries[..i + 1], opens)
         == Refused(entries[..i], opens) + (if opens(entries[i].0) then [] else [entries[i].0])
  {
    assert entries[..i + 1][..i] == entries[..i];
  }

  // ---------------------------------------------------------------------
  // The manager

  class TelegramBotManager {
    var bots: map<string, Bot>
    var dispatchers: map<string, Dispatcher>
    var users: map<int, UserRecord>
    var keywords: Dict<string, seq<string>>
    var scheduledTasks: seq<Task>
    var jobs: seq<Job>
    var schedulerRunning: bool

    /** The keyword table is a mapping, and every registered bot has its own dispatcher. */
    ghost predicate Valid()
      reads this
    {
      && UniqueKeys(keywords)
      && bots.Keys == dispatchers.Keys
      && forall t :: t in bots ==> bots[t] == Bot(t) && dispatchers[t] == Dispatcher(Bot(t))
    }

    /** The manager once its tables are loaded, before any bot is registered or job added. */
    constructor (users: map<int, UserRecord>, keywords: Dict<string, seq<string>>, tasks: seq<Task>)
      requires UniqueKeys(keywords)
      ensures Valid()
      ensures this.users == users && this.keywords == keywords && scheduledTasks == tasks
      ensures bots == map[] && dispatchers == map[] && jobs == [] && !schedulerRunning
    {
      this.users := users;
      this.keywords := keywords;
      scheduledTasks := tasks;
      bots, dispatchers := map[], map[];
      jobs, schedulerRunning := [], false;
    }

    /** The body of the `try` in `_load_bots` once the bot is constructed:
        the bot and its dispatcher are stored under the token, and every
        other registration stays as it was. */
    method Register(token: string)
      requires Valid()
      modifies this`bots, this`dispatchers
      ensures Valid()
      ensures bots == old(bots)[token := Bot(token)]
      ensures dispatchers == old(dispatchers)[token := Dispatcher(Bot(token))]
    {
      var bot := Bot(token);
      var dp := Dispatcher(bot);
      bots := bots[token := bot];
      dispatchers := dispatchers[token := dp];
    }

    /** `_load_bots`: every bot of the bots file whose construction succeeds
        is registered together with its dispatcher; a failing one is logged
        and skipped. A bots document that is not a mapping makes the loop's
        `.items()` raise, and nothing is registered. */
    method LoadBots(botsData: Doc<BotInfo>, opens: string -> bool) returns (ok: bool, failed: seq<string>)
      requires Valid()
      modifies this`bots, this`dispatchers
      ensures Valid()
      ensures bots.Keys == dispatchers.Keys
      ensures ok <==> botsData.Object?
      ensures ok ==> bots.Keys == old(bots.Keys) + Opened(botsData.entries, opens)
      ensures ok ==> failed == Refused(botsData.entries, opens)
      ensures !ok ==> bots == old(bots) && dispatchers == old(dispatchers) && failed == []
    {
      if !botsData.Object? {
        return false, [];
      }
      var entries := botsData.entries;
      failed := [];
      var i := 0;
      while i < |entries|
        invariant 0 <= i <= |entries|
        invariant Valid()
        invariant bots.Keys == old(bots.Keys) + Opened(entries[..i], opens)
        invariant failed == Refused(entries[..i], opens)
      {
        var token := entries[i].0;
        RegistrationStep(entries, opens, i);
        if opens(token) {
          Register(token);
        } else {
          failed := failed + [token];
        }
        i := i + 1;
        assert bots.Keys == old(bots.Keys) + Opened(entries[..i], opens);
        assert failed == Refused(entries[..i], opens);
      }
      assert entries[..i] == entries;
      ok := true;
    }

    /** `_start_scheduler`: one job per task the scheduler accepts, a
        rejected task logged and skipped; then the scheduler runs. */
    method StartScheduler(accepts: Task -> bool) returns (failed: seq<Task>)
      modifies this`jobs, this`schedulerRunning
      ensures jobs == old(jobs) + AddedJobs(scheduledTasks, accepts)
      ensures failed == RejectedTasks(scheduledTasks, accepts)
      ensures schedulerRunning
    {
      failed := [];
      var i := 0;
      while i < |scheduledTasks|
        invariant 0 <= i <= |scheduledTasks|
        invariant jobs == old(jobs) + AddedJobs(scheduledTasks[..i], accepts)
        invariant failed == RejectedTasks(scheduledTasks[..i], accepts)
      {
        var task := scheduledTasks[i];
        ScheduleStep(scheduledTasks, accepts, i);
        if accepts(task) {
          jobs := jobs + [JobFor(task)];
        } else {
          failed := failed + [task];
        }
        i := i + 1;
      }
      assert scheduledTasks[..i] == scheduledTasks;
      schedulerRunning := true;
    }

    /** The part of `__init__` after the tables are loaded: register the
        bots of the loaded bots document, then start the scheduler. When
        `_load_bots` raises, the constructor stops before the scheduler is
        started. */
    method Start(botsData: Doc<BotInfo>, opens: string -> bool, accepts: Task -> bool) returns (ok: bool)
      requires Valid()
      modifies this`bots, this`dispatchers, this`jobs, this`schedulerRunning
      ensures Valid()
      ensures ok <==> botsData.Object?
      ensures ok ==> bots.Keys == old(bots.Keys) + Opened(botsData.entries, opens)
      ensures ok ==> jobs == old(jobs) + AddedJobs(scheduledTasks, accepts) && schedulerRunning
      ensures !ok ==> bots == old(bots) && dispatchers == old(dispatchers)
      ensures !ok ==> jobs == old(jobs) && schedulerRunning == old(schedulerRunning)
    {
      var failedBots;
      ok, failedBots := LoadBots(botsData, opens);
      if ok {
        var failedTasks := StartScheduler(accepts);
      }
    }

    /** Startup as written: the bots file goes through `_load_data` with its
        list default, so a missing or unreadable bots file makes startup
        fail with no bot registered and the scheduler never started. */
    method StartAsWritten(botsDisk: FileState<BotInfo>, opens: string -> bool, accepts: Task -> bool)
      returns (ok: bool)
      requires Valid()
      modifies this`bots, this`dispatchers, this`jobs, this`schedulerRunning
      ensures Valid()
      ensures ok <==> LoadDataAsWritten(BotsFile, botsDisk).Object?
      ensures !botsDisk.Readable? ==> !ok && bots == old(bots) && dispatchers == old(dispatchers)
      ensures !botsDisk.Readable? ==> jobs == old(jobs) && schedulerRunning == old(schedulerRunning)
    {
      ok := Start(LoadDataAsWritten(BotsFile, botsDisk), opens, accepts);
    }

    /** Startup with the corrected loader: a missing or unreadable bots file
        is the empty mapping, so no bot is registered and the scheduler
        still starts with the jobs of the admitted tasks. */
    method StartFromDisk(botsDisk: FileState<BotInfo>, opens: string -> bool, accepts: Task -> bool)
      returns (ok: bool)
      requires Valid()
      modifies this`bots, this`dispatchers, this`jobs, this`schedulerRunning
      ensures Valid()
      ensures ok <==> LoadData(BotsFile, botsDisk).Object?
      ensures ok ==> bots.Keys == old(bots.Keys) + Opened(LoadData(BotsFile, botsDisk).entries, opens)
      ensures ok ==> jobs == old(jobs) + AddedJobs(scheduledTasks, accepts) && schedulerRunning
      ensures !botsDisk.Readable? ==> ok && bots.Keys == old(bots.Keys)
    {
      ok := Start(LoadData(BotsFile, botsDisk), opens, accepts);
    }

    /** `_process_message`: record the sender if the id is new, then route the message. */
    method ProcessMessage(msg: Message, botToken: string, now: string, delivered: string -> bool)
      returns (acts: seq<Action>)
      requires Valid()
      modifies this`users
      ensures Valid()
      ensures users == UpsertUser(old(users), msg.from, now)
      ensures acts == (if msg.from.id in old(users) then [] else [SaveUsers])
                      + RouteActions(keywords, botToken in bots, msg, delivered)
    {
      acts := [];
      var userId := msg.from.id;
      if userId !in users {
        users := users[userId := NewUserRecord(msg.from, now)];
        acts := [SaveUsers];
      }
      var routed := RouteMessage(msg, botToken, delivered);
      acts := acts + routed;
    }

    /** The keyword scan of `_process_message`: stop at the first keyword
        that occurs in the text; answer the reserved keyword, otherwise try
        every group of the keyword, each attempt on its own. */
    method RouteMessage(msg: Message, botToken: string, delivered: string -> bool) returns (acts: seq<Action>)
      requires Valid()
      ensures acts == RouteActions(keywords, botToken in bots, msg, delivered)
    {
      acts := [];
      if msg.text.Some? && msg.text.value != "" {
        var text := msg.text.value;
        var i := 0;
        while i < |keywords|
          invariant 0 <= i <= |keywords|
          invariant forall j :: 0 <= j < i ==> !IsSubstring(keywords[j].0, text)
          invariant acts == []
        {
          var keyword, groups := keywords[i].0, keywords[i].1;
          if IsSubstring(keyword, text) {
            if keyword == SettlementKeyword {
              acts := [SettlementAnswer(msg)];
            } else {
              acts := ForwardToGroups(groups, botToken in bots, msg, delivered);
            }
            assert FirstMatch(keywords, text) == Some(i);
            break;
          }
          i := i + 1;
        }
      }
    }

    /** The inner loop of `_process_message`: one `try` per target group,
        each forward attempted whatever happened to the earlier ones. */
    method ForwardToGroups(groups: seq<string>, registered: bool, msg: Message, delivered: string -> bool)
      returns (acts: seq<Action>)
      ensures acts == ForwardAll(groups, registered, msg, delivered)
    {
      acts := [];
      var k := 0;
      while k < |groups|
        invariant 0 <= k <= |groups|
        invariant acts == ForwardAll(groups[..k], registered, msg, delivered)
      {
        var attempt := ForwardAttempt(groups[k], registered, msg, delivered);
        ForwardAllStep(groups, k, registered, msg, delivered);
        acts := acts + attempt;
        k := k + 1;
        assert acts == ForwardAll(groups[..k], registered, msg, delivered);
      }
      assert groups[..k] == groups;
    }

    /** The body of that loop: the forward, and the error logged when the
        bot is missing or the send fails. */
    method ForwardAttempt(group: string, registered: bool, msg: Message, delivered: string -> bool)
      returns (attempt: seq<Action>)
      ensures attempt == ForwardOne(group, registered, msg, delivered)
    {
      if registered {
        attempt := [Forward(group, msg.chatId, msg.messageId)];
        if !delivered(group) {
          attempt := attempt + [LogError(ForwardFailed(group))];
        }
      } else {
        attempt := [LogError(ForwardFailed(group))];
      }
    }

    /** `_send_scheduled_message`: with the bot registered, exactly one send
        of `message` to `chatId`, a failure logged and swallowed; otherwise
        nothing is sent and the missing bot is logged. */
    method SendScheduledMessage(botToken: string, chatId: string, message: string, sent: bool)
      returns (acts: seq<Action>)
      ensures botToken !in bots ==> acts == [LogError(UnknownBot(botToken))]
      ensures botToken in bots ==> acts == [Send(chatId, message)] + if sent then [] else [LogError(SendFailed(chatId))]
    {
      if botToken in bots {
        acts := [Send(chatId, message)];
        if !sent {
          acts := acts + [LogError(SendFailed(chatId))];
        }
      } else {
        acts := [LogError(UnknownBot(botToken))];
      }
    }
  }
}
