/**
 * The webhook handler's decisions, with every network call turned into an
 * effect value: the per-chat conversation (USERNAME then AMOUNT), the menus
 * of the administrator and of reporters, and the inline-button callbacks.
 * The record store's contents, the clock and the administrator's chat id are
 * parameters.
 */
module Bot {
  import opened Wrappers
  import opened Text
  import opened Numbers
  import opened Records
  import opened Handles
  import opened Callbacks
  import opened Grouping
  import opened Reports

  const START := "/start"
  const NEW_SEND := "\U{1F195} New Send"
  const TOTAL_AMOUNT := "\U{1F4B0} Total Amount"
  const ALL_SUBMIT := "\U{1F4CB} All Submit"
  const ALL_SUBMISSIONS := "\U{1F4CB} All Submissions"
  const TOTAL_INFO := "\U{1F4CA} Total Info"
  const REFRESH := "\U{1F504} Refresh Data"
  const VIEW_DATE := "view_date:"

  /** Where a chat is in the intake flow; no entry means it is at the menu. */
  datatype ConvState = AskUsername | AskAmount(sender: string)

  datatype Menu = UserMenu | AdminMenu

  /** An incoming text message (`text` is "" when the message has none). */
  datatype Message = Message(chatId: int, text: string, from: From)

  /** A pressed inline button. */
  datatype Callback = Callback(chatId: int, messageId: int, from: From, data: string)

  /** A day button of the reporter's date picker. */
  datatype DateButton = DateButton(day: string, payload: string)

  /** A record as the administrator's list shows it, with its buttons. */
  datatype Card = Card(record: Record, buttons: seq<Button>)

  /** What a sent or edited message says; wording and formatting are not modelled. */
  datatype Reply =
    | Welcome(menu: Menu)
    | AskSenderPrompt
    | NoTelegramUsername
    | InvalidUsernameFormat
    | SenderSaved(sender: string)
    | AmountNotNumber
    | NewSubmission(record: Record, buttons: seq<Button>)
    | Submitted
    | NoSubmissions
    | SubmissionList(groups: map<string, map<string, seq<Card>>>)
    | NoData
    | StatsReport(stats: Stats)
    | Refreshed
    | ApprovedTotalReply(total: nat)
    | NoUserSubmissions
    | SelectDate(picker: seq<seq<DateButton>>)
    | StatusUpdated(status: string)
    | StatusNotice(notice: Notice)
    | NoDataForDate
    | DayReport(day: string, listed: seq<Record>, total: nat)

  /** The calls the handler makes to the messaging gateway and the record store. */
  datatype Effect =
    | Send(chat: int, reply: Reply)
    | SendToField(target: Option<string>, reply: Reply)  // `Number(targetChat)` of a payload field
    | Edit(chat: int, messageId: int, reply: Reply)
    | Insert(record: Record)
    | Patch(dateKey: Option<string>, status: string)

  datatype Outcome = Outcome(state: Option<ConvState>, effects: seq<Effect>)

  /** The records an effect list inserts, in order. */
  function Inserted(effects: seq<Effect>): seq<Record> {
    if |effects| == 0 then []
    else (if effects[0].Insert? then [effects[0].record] else []) + Inserted(effects[1..])
  }

  /** The store updates an effect list makes, in order. */
  function Patched(effects: seq<Effect>): seq<Effect> {
    if |effects| == 0 then []
    else (if effects[0].Patch? then [effects[0]] else []) + Patched(effects[1..])
  }

  /** Sending and editing messages neither inserts nor patches records. */
  lemma OnlyMessages(effects: seq<Effect>)
    requires forall i :: 0 <= i < |effects| ==> effects[i].Send? || effects[i].Edit? || effects[i].SendToField?
    ensures Inserted(effects) == [] && Patched(effects) == []
  {
    if |effects| > 0 {
      OnlyMessages(effects[1..]);
    }
  }

  // ---------------------------------------------------------------- views

  function Cards(rs: seq<Record>): (cs: seq<Card>)
    ensures |cs| == |rs|
    ensures forall i :: 0 <= i < |rs| ==> cs[i] == Card(rs[i], RecordButtons(rs[i]))
  {
    seq(|rs|, i requires 0 <= i < |rs| => Card(rs[i], RecordButtons(rs[i])))
  }

  /** "All Submissions" with each record's buttons attached. */
  function SubmissionCards(rs: seq<Record>): map<string, map<string, seq<Card>>> {
    var g := SubmissionGroups(rs);
    map u | u in g :: map d | d in g[u] :: Cards(g[u][d])
  }

  function ViewDatePayload(day: string): string {
    VIEW_DATE + day
  }

  /** The date picker of "All Submit": the days in rows of two, each button carrying its day. */
  function DatePicker(days: seq<string>): seq<seq<DateButton>> {
    var rows := PairUp(days);
    seq(|rows|, i requires 0 <= i < |rows| =>
      seq(|rows[i]|, j requires 0 <= j < |rows[i]| => DateButton(rows[i][j], ViewDatePayload(rows[i][j]))))
  }

  /**
   * The picker has one row per two days; button `j` of row `i` shows day
   * `2 * i + j` of the list and carries the payload that opens that day.
   */
  lemma DatePickerLayout(days: seq<string>, i: nat, j: nat)
    requires i < |DatePicker(days)| && j < |DatePicker(days)[i]|
    ensures |DatePicker(days)| == (|days| + 1) / 2
    ensures 2 * i + j < |days|
    ensures DatePicker(days)[i][j] == DateButton(days[2 * i + j], VIEW_DATE + days[2 * i + j])
  {
    PairUpIndex(days, i, j);
  }

  // ---------------------------------------------------------------- messages

  /** The menu, reached when the chat has no conversation state. */
  function MenuChoice(adminId: int, msg: Message, snapshot: seq<Record>): (o: Outcome)
    ensures o.state.Some? <==> msg.chatId != adminId && msg.text == NEW_SEND
    ensures o.state.Some? ==> o.state == Some(AskUsername)
    ensures Inserted(o.effects) == [] && Patched(o.effects) == []
  {
    var chat, text := msg.chatId, msg.text;
    if chat == adminId then
      if text == ALL_SUBMISSIONS then
        if |snapshot| == 0 then Outcome(None, [Send(adminId, NoSubmissions)])
        else Outcome(None, [Send(adminId, SubmissionList(SubmissionCards(snapshot)))])
      else if text == TOTAL_INFO then
        if |snapshot| == 0 then Outcome(None, [Send(adminId, NoData)])
        else Outcome(None, [Send(adminId, StatsReport(TotalInfo(snapshot)))])
      else if text == REFRESH then Outcome(None, [Send(adminId, Refreshed)])
      else Outcome(None, [])
    else
      var user := Identity(msg.from);
      if text == NEW_SEND then Outcome(Some(AskUsername), [Send(chat, AskSenderPrompt)])
      else if text == TOTAL_AMOUNT then Outcome(None, [Send(chat, ApprovedTotalReply(ApprovedTotal(snapshot, user)))])
      else if text == ALL_SUBMIT then
        if DaysOf(snapshot, user) == [] then Outcome(None, [Send(chat, NoUserSubmissions)])
        else Outcome(None, [Send(chat, SelectDate(DatePicker(DateList(snapshot, user))))])
      else Outcome(None, [])
  }

  /**
   * The administrator's "Total Info": one report whose users are exactly the
   * user keys that occur, whose counters are the per-user status counts, and
   * whose grand totals are the sums of those counters. An empty store gets "no
   * data" instead.
   */
  lemma AdminTotalInfo(adminId: int, msg: Message, snapshot: seq<Record>)
    requires msg.chatId == adminId && msg.text == TOTAL_INFO
    ensures var o := MenuChoice(adminId, msg, snapshot);
            && o.state.None?
            && (|snapshot| == 0 ==> o.effects == [Send(adminId, NoData)])
            && (|snapshot| > 0 ==>
                  && |o.effects| == 1 && o.effects[0].Send? && o.effects[0].chat == adminId
                  && o.effects[0].reply.StatsReport?
                  && var s := o.effects[0].reply.stats;
                     && s == TotalInfo(snapshot)
                     && Distinct(s.users)
                     && (forall u :: u in s.users <==> u in s.perUser)
                     && s.grand == Counts(CountAll(snapshot, ACCEPTED), CountAll(snapshot, CANCELED),
                                          CountAll(snapshot, PAID))
                     && s.perUser.Keys == KeysOf(snapshot, UserKey)
                     && (forall u :: u in s.perUser ==>
                           s.perUser[u] == Counts(CountOf(snapshot, u, ACCEPTED), CountOf(snapshot, u, CANCELED),
                                                  CountOf(snapshot, u, PAID)))
                     && SumOver(s.users, s.perUser) == s.grand)
  {
    assert ALL_SUBMISSIONS != TOTAL_INFO;
    TotalInfoUsers(snapshot);
    forall u | u in TotalInfo(snapshot).perUser
      ensures TotalInfo(snapshot).perUser[u]
              == Counts(CountOf(snapshot, u, ACCEPTED), CountOf(snapshot, u, CANCELED), CountOf(snapshot, u, PAID))
    {
      TotalInfoCounts(snapshot, u);
    }
    GrandTotalIsSumOfUsers(snapshot);
  }

  /**
   * A reporter's "Total Amount": one reply, to the reporter's chat, with the
   * sum of the accepted amounts filed under the identity of the sender of the
   * message, and no conversation step opened.
   */
  lemma ReporterTotalAmount(adminId: int, msg: Message, snapshot: seq<Record>)
    requires msg.chatId != adminId && msg.text == TOTAL_AMOUNT
    ensures var o := MenuChoice(adminId, msg, snapshot);
            && o.state.None?
            && o.effects == [Send(msg.chatId, ApprovedTotalReply(ApprovedTotal(snapshot, Identity(msg.from))))]
  {
    assert TOTAL_AMOUNT != NEW_SEND;
  }

  /**
   * A reporter's "All Submit": "no submissions" exactly when the store holds no
   * record filed under the sender's identity; otherwise the date picker over
   * that identity's days, newest first.
   */
  lemma ReporterAllSubmit(adminId: int, msg: Message, snapshot: seq<Record>)
    requires msg.chatId != adminId && msg.text == ALL_SUBMIT
    ensures var o := MenuChoice(adminId, msg, snapshot);
            && o.state.None?
            && ((forall i :: 0 <= i < |snapshot| ==> snapshot[i].telegramUser != Identity(msg.from))
                <==> o.effects == [Send(msg.chatId, NoUserSubmissions)])
            && ((exists i :: 0 <= i < |snapshot| && snapshot[i].telegramUser == Identity(msg.from))
                ==> o.effects == [Send(msg.chatId, SelectDate(DatePicker(DateList(snapshot, Identity(msg.from)))))])
  {
    assert ALL_SUBMIT != NEW_SEND && ALL_SUBMIT != TOTAL_AMOUNT;
  }

  /**
   * The administrator's "All Submissions": one listing in which every record of
   * the store appears, with its own buttons, under its user and its day. An
   * empty store gets "no submissions" instead.
   */
  lemma AdminAllSubmissions(adminId: int, msg: Message, snapshot: seq<Record>)
    requires msg.chatId == adminId && msg.text == ALL_SUBMISSIONS
    ensures var o := MenuChoice(adminId, msg, snapshot);
            && o.state.None?
            && (|snapshot| == 0 ==> o.effects == [Send(adminId, NoSubmissions)])
            && (|snapshot| > 0 ==>
                  && |o.effects| == 1 && o.effects[0].Send? && o.effects[0].chat == adminId
                  && o.effects[0].reply.SubmissionList?
                  && var g := o.effects[0].reply.groups;
                     && g == SubmissionCards(snapshot)
                     && g.Keys == KeysOf(snapshot, UserOf)
                     && forall i :: 0 <= i < |snapshot| ==>
                          var r := snapshot[i];
                          r.telegramUser in g && Day(r.date) in g[r.telegramUser]
                          && Card(r, RecordButtons(r)) in g[r.telegramUser][Day(r.date)])
  {
    if |snapshot| > 0 {
      var g := SubmissionCards(snapshot);
      forall i | 0 <= i < |snapshot|
        ensures var r := snapshot[i];
                r.telegramUser in g && Day(r.date) in g[r.telegramUser]
                && Card(r, RecordButtons(r)) in g[r.telegramUser][Day(r.date)]
      {
        var r := snapshot[i];
        SubmissionGroupsCover(snapshot, i);
        var bucket := SubmissionGroups(snapshot)[r.telegramUser][Day(r.date)];
        var j :| 0 <= j < |bucket| && bucket[j] == r;
        assert Cards(bucket)[j] == Card(r, RecordButtons(r));
      }
    }
  }

  /** The USERNAME step: a refused answer keeps the step, an accepted one moves to AMOUNT. */
  function UsernameStep(msg: Message): (o: Outcome)
    ensures o.state.Some?
    ensures o.state.value.AskAmount? ==> IsNormalizedHandle(o.state.value.sender)
    ensures Inserted(o.effects) == [] && Patched(o.effects) == []
  {
    match ResolveSender(msg.text, msg.from)
    case Failure(MissingHandle) => Outcome(Some(AskUsername), [Send(msg.chatId, NoTelegramUsername)])
    case Failure(InvalidFormat) => Outcome(Some(AskUsername), [Send(msg.chatId, InvalidUsernameFormat)])
    case Success(sender) => Outcome(Some(AskAmount(sender)), [Send(msg.chatId, SenderSaved(sender))])
  }

  /** The record an accepted amount creates. */
  function NewRecord(msg: Message, sender: string, clock: string): Record
    requires IsDigits(msg.text)
  {
    Record(DateIdOf(clock), Identity(msg.from), msg.chatId, sender, ParseDigits(msg.text), PENDING)
  }

  /** The AMOUNT step: a number files the submission and ends the conversation. */
  function AmountStep(adminId: int, msg: Message, sender: string, clock: string): (o: Outcome)
    ensures o.state.None? <==> IsDigits(msg.text)
    ensures o.state.Some? ==> o.state == Some(AskAmount(sender))
    ensures |Inserted(o.effects)| == (if IsDigits(msg.text) then 1 else 0)
    ensures Patched(o.effects) == []
  {
    if !IsDigits(msg.text) then Outcome(Some(AskAmount(sender)), [Send(msg.chatId, AmountNotNumber)])
    else
      var r := NewRecord(msg, sender, clock);
      var tail := [Send(adminId, NewSubmission(r, RecordButtons(r))), Send(msg.chatId, Submitted)];
      OnlyMessages(tail);
      assert ([Insert(r)] + tail)[1..] == tail;
      Outcome(None, [Insert(r)] + tail)
  }

  /**
   * One message against the chat's conversation state. `/start` shows the menu
   * and keeps the state; a chat without state gets the menu; otherwise the
   * current step consumes the text.
   */
  function Step(st: Option<ConvState>, adminId: int, msg: Message, snapshot: seq<Record>, clock: string): (o: Outcome)
    ensures msg.text == START ==> o.state == st
    ensures st.None? && o.state.Some? ==>
              msg.chatId != adminId && msg.text == NEW_SEND && o.state == Some(AskUsername)
    ensures st.Some? && o.state.None? ==> st.value.AskAmount? && IsDigits(msg.text)
    ensures |Inserted(o.effects)| == (if st.Some? && st.value.AskAmount? && IsDigits(msg.text) then 1 else 0)
    ensures Patched(o.effects) == []
  {
    assert !IsDigits(START) by { assert !IsDigit(START[0]); }
    if msg.text == START then
      Outcome(st, [Send(msg.chatId, Welcome(if msg.chatId == adminId then AdminMenu else UserMenu))])
    else
      match st
      case None => MenuChoice(adminId, msg, snapshot)
      case Some(AskUsername) => UsernameStep(msg)
      case Some(AskAmount(sender)) => AmountStep(adminId, msg, sender, clock)
  }

  /** The process-wide `userState` map after one message; no other chat's entry changes. */
  function HandleMessage(states: map<int, ConvState>, adminId: int, msg: Message, snapshot: seq<Record>, clock: string)
    : (r: (map<int, ConvState>, seq<Effect>))
    ensures forall c :: c != msg.chatId ==> (c in r.0 <==> c in states)
    ensures forall c :: c != msg.chatId && c in states ==> r.0[c] == states[c]
  {
    var st := if msg.chatId in states then Some(states[msg.chatId]) else None;
    var o := Step(st, adminId, msg, snapshot, clock);
    var next := match o.state
      case Some(s) => states[msg.chatId := s]
      case None => states - {msg.chatId};
    (next, o.effects)
  }

  /**
   * What holds of `userState` between messages: the administrator's chat has
   * no entry, and every sender waiting for its amount is a normalized handle.
   */
  predicate Inv(states: map<int, ConvState>, adminId: int) {
    && adminId !in states
    && forall c :: c in states && states[c].AskAmount? ==> IsNormalizedHandle(states[c].sender)
  }

  /** Every message keeps the invariant, starting from the empty map a fresh process has. */
  lemma HandleMessageKeepsInv(states: map<int, ConvState>, adminId: int, msg: Message, snapshot: seq<Record>, clock: string)
    requires Inv(states, adminId)
    ensures Inv(HandleMessage(states, adminId, msg, snapshot, clock).0, adminId)
  {
    var st := if msg.chatId in states then Some(states[msg.chatId]) else None;
    var o := Step(st, adminId, msg, snapshot, clock);
    if msg.text != START && st.Some? && st.value.AskUsername? {
      assert o == UsernameStep(msg);
    }
  }

  /** At USERNAME: a missing own handle and an invalid handle keep the step; a valid one moves to AMOUNT. */
  lemma UsernameStepOutcomes(adminId: int, msg: Message, snapshot: seq<Record>, clock: string)
    requires msg.text != START
    ensures var o := Step(Some(AskUsername), adminId, msg, snapshot, clock);
            && (IsSelf(msg.text) && msg.from.username == "" ==>
                  o == Outcome(Some(AskUsername), [Send(msg.chatId, NoTelegramUsername)]))
            && (IsSelf(msg.text) && msg.from.username != "" ==>
                  o.state == if IsWordRun(msg.from.username) then Some(AskAmount("@" + msg.from.username))
                             else Some(AskUsername))
            && (!IsSelf(msg.text) ==>
                  o.state == if MatchesHandlePattern(Trim(msg.text)) then Some(AskAmount("@" + WordPart(Trim(msg.text))))
                             else Some(AskUsername))
            && (o.state.value.AskAmount? ==> IsNormalizedHandle(o.state.value.sender))
  {
  }

  /**
   * At AMOUNT: text that is not all digits keeps the step and the sender; digits
   * insert exactly one pending record with the stored sender and the parsed
   * amount, offer the administrator accept and cancel for it, and end the
   * conversation.
   */
  lemma AmountStepOutcomes(adminId: int, msg: Message, sender: string, snapshot: seq<Record>, clock: string)
    requires msg.text != START
    ensures var o := Step(Some(AskAmount(sender)), adminId, msg, snapshot, clock);
            && (!IsDigits(msg.text) ==> o == Outcome(Some(AskAmount(sender)), [Send(msg.chatId, AmountNotNumber)]))
            && (IsDigits(msg.text) ==>
                  var r := Record(DateIdOf(clock), Identity(msg.from), msg.chatId, sender, ParseDigits(msg.text), PENDING);
                  && o.state.None?
                  && Inserted(o.effects) == [r]
                  && Send(adminId, NewSubmission(r, RecordButtons(r))) in o.effects
                  && |RecordButtons(r)| == 2
                  && RecordButtons(r)[0].action == Accept && RecordButtons(r)[1].action == Cancel)
  {
  }

  /**
   * A whole submission by a reporter whose chat has no state: choosing "New
   * Send", giving a valid handle and then an amount files exactly one pending
   * record with the normalized handle and the parsed amount, and leaves the
   * chat without state again.
   */
  lemma SubmissionConversation(adminId: int, chat: int, from: From, handle: string, amount: string,
                               snapshot: seq<Record>, clock: string)
    requires chat != adminId
    requires handle != START && !IsSelf(handle) && MatchesHandlePattern(Trim(handle))
    requires amount != START && IsDigits(amount)
    ensures var sender := "@" + WordPart(Trim(handle));
            var r1 := HandleMessage(map[], adminId, Message(chat, NEW_SEND, from), snapshot, clock);
            var r2 := HandleMessage(r1.0, adminId, Message(chat, handle, from), snapshot, clock);
            var r3 := HandleMessage(r2.0, adminId, Message(chat, amount, from), snapshot, clock);
            && r1.0 == map[chat := AskUsername]
            && r2.0 == map[chat := AskAmount(sender)]
            && r3.0 == map[]
            && Inserted(r1.1) == [] && Inserted(r2.1) == []
            && Inserted(r3.1) == [Record(DateIdOf(clock), Identity(from), chat, sender, ParseDigits(amount), PENDING)]
  {
    var sender := "@" + WordPart(Trim(handle));
    var r1 := HandleMessage(map[], adminId, Message(chat, NEW_SEND, from), snapshot, clock);
    OpenConversation(map[], adminId, Message(chat, NEW_SEND, from), snapshot, clock);
    assert r1.0 == map[chat := AskUsername];
    var r2 := HandleMessage(r1.0, adminId, Message(chat, handle, from), snapshot, clock);
    GiveHandle(r1.0, adminId, Message(chat, handle, from), snapshot, clock);
    assert r2.0 == map[chat := AskAmount(sender)];
    GiveAmount(r2.0, adminId, Message(chat, amount, from), sender, snapshot, clock);
    assert map[chat := AskAmount(sender)] - {chat} == map[];
  }

  lemma OpenConversation(states: map<int, ConvState>, adminId: int, msg: Message, snapshot: seq<Record>, clock: string)
    requires msg.chatId !in states && msg.chatId != adminId && msg.text == NEW_SEND
    ensures var r := HandleMessage(states, adminId, msg, snapshot, clock);
            r.0 == states[msg.chatId := AskUsername] && Inserted(r.1) == []
  {
    assert NEW_SEND != START;
    assert Step(None, adminId, msg, snapshot, clock) == MenuChoice(adminId, msg, snapshot);
  }

  lemma GiveHandle(states: map<int, ConvState>, adminId: int, msg: Message, snapshot: seq<Record>, clock: string)
    requires msg.chatId in states && states[msg.chatId] == AskUsername
    requires msg.text != START && !IsSelf(msg.text) && MatchesHandlePattern(Trim(msg.text))
    ensures var r := HandleMessage(states, adminId, msg, snapshot, clock);
            r.0 == states[msg.chatId := AskAmount("@" + WordPart(Trim(msg.text)))] && Inserted(r.1) == []
  {
    UsernameStepOutcomes(adminId, msg, snapshot, clock);
  }

  lemma GiveAmount(states: map<int, ConvState>, adminId: int, msg: Message, sender: string,
                   snapshot: seq<Record>, clock: string)
    requires msg.chatId in states && states[msg.chatId] == AskAmount(sender)
    requires msg.text != START && IsDigits(msg.text)
    ensures var r := HandleMessage(states, adminId, msg, snapshot, clock);
            r.0 == states - {msg.chatId} && Inserted(r.1) == [NewRecord(msg, sender, clock)]
  {
    AmountStepOutcomes(adminId, msg, sender, snapshot, clock);
  }

  // ---------------------------------------------------------------- callbacks

  /** The accept / cancel / paid branch: patch the row, edit the admin's message, tell the reporter. */
  function StatusEffects(cb: Callback): seq<Effect> {
    var req := DecodeStatus(cb.data);
    var u := UpdateFor(req.action);
    [Patch(req.dateId, u.status), Edit(cb.chatId, cb.messageId, StatusUpdated(u.status)),
     SendToField(req.target, StatusNotice(u.notice))]
  }

  /** The `view_date:` branch: the reporter's records of that day and their daily total. */
  function DayViewEffects(cb: Callback, snapshot: seq<Record>): seq<Effect> {
    var parts := Split(cb.data, ':');
    var day := if |parts| > 1 then parts[1] else "";
    var rows := DayRows(snapshot, Identity(cb.from), day);
    if |rows| == 0 then [Edit(cb.chatId, cb.messageId, NoDataForDate)]
    else [Edit(cb.chatId, cb.messageId, DayReport(day, rows, DayTotal(rows)))]
  }

  /**
   * A pressed inline button. Callbacks never touch conversation state or insert
   * records, and only a status payload patches the store, once, with the status
   * its action name selects.
   */
  function HandleCallback(cb: Callback, adminId: int, snapshot: seq<Record>): (effects: seq<Effect>)
    ensures Inserted(effects) == []
    ensures Patched(effects) != [] ==> IsStatusPayload(cb.data)
    ensures IsStatusPayload(cb.data) ==>
              Patched(effects) == [Patch(DecodeStatus(cb.data).dateId, UpdateFor(DecodeStatus(cb.data).action).status)]
  {
    var data := cb.data;
    if IsStatusPayload(data) then
      StatusEffectsPatchOnce(cb);
      StatusEffects(cb)
    else if StartsWith(data, VIEW_DATE) then
      DayViewOnlyMessages(cb, snapshot);
      DayViewEffects(cb, snapshot)
    else if StartsWith(data, "paid:") && cb.chatId == adminId then
      // unreachable: the status branch has already taken every payload starting with "paid"
      assert false; []
    else []
  }

  lemma StatusEffectsPatchOnce(cb: Callback)
    ensures Inserted(StatusEffects(cb)) == []
    ensures Patched(StatusEffects(cb)) == [StatusEffects(cb)[0]]
  {
    var effects := StatusEffects(cb);
    OnlyMessages(effects[1..]);
  }

  lemma DayViewOnlyMessages(cb: Callback, snapshot: seq<Record>)
    ensures Inserted(DayViewEffects(cb, snapshot)) == [] && Patched(DayViewEffects(cb, snapshot)) == []
  {
    OnlyMessages(DayViewEffects(cb, snapshot));
  }

  /**
   * The later `paid:` branch never runs: every payload it would take starts with
   * `paid` and is handled by the status branch, whoever pressed it.
   */
  lemma PaidBranchIsDead(cb: Callback, adminId: int, snapshot: seq<Record>)
    requires StartsWith(cb.data, "paid:")
    ensures HandleCallback(cb, adminId, snapshot) == StatusEffects(cb)
  {
    assert cb.data[..4] == "paid";
    assert IsStatusPayload(cb.data);
  }

  /**
   * Pressing a button of a record whose date id has no ':' patches exactly that
   * row to the button's status — a lifecycle step from the record's status —
   * edits the pressed message, and sends the reporter the matching notice at a
   * target that reads back as the record's chat id.
   */
  lemma ButtonPressUpdatesRecord(r: Record, i: nat, adminId: int, messageId: int, from: From, snapshot: seq<Record>)
    requires ':' !in r.date
    requires i < |RecordButtons(r)|
    ensures var b := RecordButtons(r)[i];
            var u := UpdateFor(ActionName(b.action));
            && HandleCallback(Callback(adminId, messageId, from, b.payload), adminId, snapshot)
               == [Patch(Some(r.date), u.status), Edit(adminId, messageId, StatusUpdated(u.status)),
                   SendToField(Some(IntToString(r.chatId)), StatusNotice(u.notice))]
            && LifecycleStep(r.status, u.status)
            && u.notice != NoNotice
            && ParseInt(IntToString(r.chatId)) == Some(r.chatId)
  {
    var b := RecordButtons(r)[i];
    PayloadIsStatusPayload(b.action, r.date, r.chatId);
    PayloadRoundTrip(b.action, r.date, r.chatId);
  }

  /**
   * A payload that merely starts like a status action (`acceptX:...`) still
   * takes the status branch, and writes a blank status with no notice.
   */
  lemma PrefixOnlyActionBlanksStatus(cb: Callback, adminId: int, snapshot: seq<Record>)
    requires IsStatusPayload(cb.data)
    requires DecodeStatus(cb.data).action !in {"accept", "cancel", "paid"}
    ensures var effects := HandleCallback(cb, adminId, snapshot);
            && Patched(effects) == [Patch(DecodeStatus(cb.data).dateId, "")]
            && SendToField(DecodeStatus(cb.data).target, StatusNotice(NoNotice)) in effects
  {
  }

  /**
   * For instance `acceptX:<date id>:<chat>`, which no button produces, is taken
   * as a status payload and blanks the status of that row.
   */
  lemma PrefixOnlyExample(dateId: string, chat: string)
    requires ':' !in dateId && ':' !in chat
    ensures var data := Join(["acceptX", dateId, chat], ':');
            && IsStatusPayload(data)
            && DecodeStatus(data) == StatusRequest("acceptX", Some(dateId), Some(chat))
            && UpdateFor(DecodeStatus(data).action) == Update("", NoNotice)
  {
    var parts := ["acceptX", dateId, chat];
    var data := Join(parts, ':');
    JoinThree(parts[0], parts[1], parts[2], ':');
    assert ':' !in parts[0];
    SplitJoin(parts, ':');
    assert data[..6] == "accept";
  }

  /**
   * A date button pressed by a reporter shows that day's records of the presser
   * and the daily total, which is the approved total over that day's records.
   */
  lemma DateButtonShowsDay(day: string, chatId: int, messageId: int, from: From, adminId: int, snapshot: seq<Record>)
    requires ':' !in day
    ensures var rows := DayRows(snapshot, Identity(from), day);
            && HandleCallback(Callback(chatId, messageId, from, ViewDatePayload(day)), adminId, snapshot)
               == (if rows == [] then [Edit(chatId, messageId, NoDataForDate)]
                   else [Edit(chatId, messageId, DayReport(day, rows, DayTotal(rows)))])
            && DayTotal(rows) == ApprovedTotal(DatedOn(snapshot, day), Identity(from))
  {
    var data := ViewDatePayload(day);
    assert data == Join(["view_date", day], ':') by {
      assert ["view_date", day][1..] == [day];
    }
    SplitJoin(["view_date", day], ':');
    assert !IsStatusPayload(data) by {
      assert data[0] == 'v';
    }
    assert data[..|VIEW_DATE|] == VIEW_DATE;
    DailyTotalIsApprovedTotalOfDay(snapshot, Identity(from), day);
  }
}
