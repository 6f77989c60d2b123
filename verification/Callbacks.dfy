/**
 * Inline buttons on a submission and the status change each one carries:
 * payloads `action:dateId:chatId`, which buttons a status exposes, and the
 * table from action name to stored status and reporter notice.
 */
module Callbacks {
  import opened Wrappers
  import opened Text
  import opened Numbers
  import opened Records

  /** The three status buttons an administrator can press. */
  datatype Action = Accept | Cancel | MarkPaid

  function ActionName(a: Action): string {
    match a
    case Accept => "accept"
    case Cancel => "cancel"
    case MarkPaid => "paid"
  }

  /** An inline button: which action it shows and the payload it sends back. */
  datatype Button = Button(action: Action, payload: string)

  /** `${action}:${date}:${chatId}`. */
  function Payload(a: Action, date: string, chatId: int): string {
    Join([ActionName(a), date, IntToString(chatId)], ':')
  }

  /**
   * The status lifecycle the buttons are meant to follow:
   * pending → accepted → paid, and pending → canceled.
   */
  predicate LifecycleStep(from: string, to: string) {
    || (from == PENDING && (to == ACCEPTED || to == CANCELED))
    || (from == ACCEPTED && to == PAID)
  }

  /** The message a reporter receives when their submission changes status. */
  datatype Notice = AcceptedNotice | CanceledNotice | PaidNotice | NoNotice

  /** What a status callback writes: the new status cell and the reporter notice. */
  datatype Update = Update(status: string, notice: Notice)

  /**
   * The action table: `accept`, `cancel` and `paid` each select their own status
   * and notice; any other action name leaves both blank. Each status comes from
   * exactly one action name.
   */
  function UpdateFor(action: string): (u: Update)
    ensures action == "accept" <==> u == Update(ACCEPTED, AcceptedNotice)
    ensures action == "cancel" <==> u == Update(CANCELED, CanceledNotice)
    ensures action == "paid" <==> u == Update(PAID, PaidNotice)
    ensures action !in {"accept", "cancel", "paid"} <==> u == Update("", NoNotice)
  {
    if action == "accept" then Update(ACCEPTED, AcceptedNotice)
    else if action == "cancel" then Update(CANCELED, CanceledNotice)
    else if action == "paid" then Update(PAID, PaidNotice)
    else Update("", NoNotice)
  }

  /** The status a button moves its record to. */
  function Target(a: Action): string {
    UpdateFor(ActionName(a)).status
  }

  /**
   * The buttons shown under a record: pending offers accept and cancel, accepted
   * offers paid, any other status none. Every button is a lifecycle step from the
   * record's status, every lifecycle step has exactly one button, and every
   * payload names the record's date id and chat.
   */
  function Buttons(status: string, date: string, chatId: int): (bs: seq<Button>)
    ensures forall i :: 0 <= i < |bs| ==> LifecycleStep(status, Target(bs[i].action))
    ensures forall to :: LifecycleStep(status, to) ==>
              exists i :: 0 <= i < |bs| && Target(bs[i].action) == to
    ensures forall i, j :: 0 <= i < j < |bs| ==> bs[i].action != bs[j].action
    ensures forall i :: 0 <= i < |bs| ==> bs[i].payload == Payload(bs[i].action, date, chatId)
  {
    assert Target(Accept) == ACCEPTED && Target(Cancel) == CANCELED && Target(MarkPaid) == PAID;
    if status == PENDING then
      var bs := [Button(Accept, Payload(Accept, date, chatId)), Button(Cancel, Payload(Cancel, date, chatId))];
      assert Target(bs[0].action) == ACCEPTED && Target(bs[1].action) == CANCELED;
      bs
    else if status == ACCEPTED then
      var bs := [Button(MarkPaid, Payload(MarkPaid, date, chatId))];
      assert Target(bs[0].action) == PAID;
      bs
    else []
  }

  function RecordButtons(r: Record): seq<Button> {
    Buttons(r.status, r.date, r.chatId)
  }

  /** A payload the status branch takes: one that begins with `accept`, `cancel` or `paid`. */
  predicate IsStatusPayload(data: string) {
    StartsWith(data, "accept") || StartsWith(data, "cancel") || StartsWith(data, "paid")
  }

  /** A status payload taken apart: the missing fields of a short payload are absent. */
  datatype StatusRequest = StatusRequest(action: string, dateId: Option<string>, target: Option<string>)

  /** The first three colon-separated fields of a payload: action name, date id and target chat. */
  function DecodeStatus(data: string): StatusRequest {
    var parts := Split(data, ':');
    StatusRequest(
      parts[0],
      if |parts| > 1 then Some(parts[1]) else None,
      if |parts| > 2 then Some(parts[2]) else None)
  }

  lemma JoinThree(a: string, b: string, c: string, sep: char)
    ensures Join([a, b, c], sep) == a + [sep] + b + [sep] + c
  {
    assert [a, b, c][1..] == [b, c];
    assert [b, c][1..] == [c];
    assert Join([c], sep) == c;
    assert Join([b, c], sep) == b + [sep] + c;
  }

  /** Every payload a button carries passes the status-callback prefix test. */
  lemma PayloadIsStatusPayload(a: Action, date: string, chatId: int)
    ensures IsStatusPayload(Payload(a, date, chatId))
  {
    var name := ActionName(a);
    JoinThree(name, date, IntToString(chatId), ':');
    var data := Payload(a, date, chatId);
    assert data == name + ([':'] + date + [':'] + IntToString(chatId));
    assert data[..|name|] == name;
  }

  /**
   * A payload built for a date id without ':' decodes to the action name, the
   * date id and the chat id's text, and that text reads back as the chat id.
   */
  lemma PayloadRoundTrip(a: Action, date: string, chatId: int)
    requires ':' !in date
    ensures DecodeStatus(Payload(a, date, chatId))
            == StatusRequest(ActionName(a), Some(date), Some(IntToString(chatId)))
    ensures ParseInt(IntToString(chatId)) == Some(chatId)
  {
    var name, chat := ActionName(a), IntToString(chatId);
    var parts := [name, date, chat];
    IntToStringRoundTrip(chatId);
    assert ':' !in name by { match a case Accept => case Cancel => case MarkPaid => }
    SplitJoin(parts, ':');
    assert Split(Payload(a, date, chatId), ':') == parts;
  }
}
