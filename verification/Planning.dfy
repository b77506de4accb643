/** Planned actions of app/agents/nodes.py: how what a model proposed is normalized, and how
    the policy gate sorts it. */
module Planning {
  import opened Domain
  import opened PythonText
  import opened Words

  /** An item of the proposed list. A tool or reason that is absent reads as null; `rest` holds
      the keys that are only carried along. */
  datatype Item = NotAnObject | Planned(tool: Json, payload: Option<Json>, reason: Json, rest: Payload)

  /** What planning reads of the workflow state. `inputEmail` is what the search for an
      address in the input text found. */
  datatype State = State(
    ticketEmail: Json,
    entities: Json,
    inputEmail: Option<string>,
    intent: Option<string>,
    draftResponse: Json
  )

  const SEND_EMAIL := Str("send_email")
  const CRM_NOTE := Str("create_crm_note")
  const EXPORT_REPORT := Str("export_report")
  const EMAIL_REASON := Str("Send the reviewed support response to the customer after approval.")
  const ADDED_REASON := Str("Send the drafted customer response after a human approves it.")
  const NOTE_REASON := Str("Record an internal, audited support note.")

  predicate Listed(tool: Json) {
    tool == SEND_EMAIL || tool == CRM_NOTE || tool == EXPORT_REPORT
  }

  // ---- Reading JSON ----

  predicate Truthy(value: Json) {
    match value
    case Null => false
    case Bool(b) => b
    case Num(r) => r != 0.0
    case Str(s) => s != ""
    case Arr(items) => items != []
    case Obj(fields) => fields != map[]
  }

  function Get(fields: Payload, key: string): Json {
    if key in fields then fields[key] else Null
  }

  function FirstTextIn(items: seq<Json>): Option<string> {
    if |items| == 0 then None
    else if items[0].Str? && Strip(items[0].s) != "" then Some(Strip(items[0].s))
    else FirstTextIn(items[1..])
  }

  function FirstText(value: Json): Option<string> {
    match value
    case Str(s) => if Strip(s) != "" then Some(Strip(s)) else None
    case Arr(items) => FirstTextIn(items)
    case _ => None
  }

  function Or<T>(a: Option<T>, b: Option<T>): Option<T> {
    if a.Some? then a else b
  }

  lemma {:induction false} FirstTextInTrimmed(items: seq<Json>)
    ensures FirstTextIn(items).Some? ==> FirstTextIn(items).value != "" && Trimmed(FirstTextIn(items).value)
  {
    if |items| == 0 {
    } else {
      if items[0].Str? {
        StripTwice(items[0].s);
      }
      FirstTextInTrimmed(items[1..]);
    }
  }

  predicate CleanText(text: string) {
    text != "" && Trimmed(text)
  }

  lemma FirstTextClean(value: Json)
    ensures FirstText(value).Some? ==> CleanText(FirstText(value).value)
  {
    match value
    case Str(s) => StripTwice(s);
    case Arr(items) => FirstTextInTrimmed(items);
    case _ =>
  }

  lemma FirstTextOfClean(text: string)
    requires CleanText(text)
    ensures FirstText(Str(text)) == Some(text)
  {
    StripOfTrimmed(text);
  }

  // ---- The recipient ----

  predicate Plain(s: string) {
    |s| > 0 && forall i | 0 <= i < |s| :: s[i] != '@' && !IsSpace(s[i])
  }

  predicate SplitsAt(s: string, at: int, dot: int) {
    && 0 <= at < dot < |s| && s[at] == '@' && s[dot] == '.'
    && Plain(s[..at]) && Plain(s[at + 1..dot]) && Plain(s[dot + 1..])
  }

  /** ^[^@\s]+@[^@\s]+\.[^@\s]+$, and nothing redacted about it */
  predicate EmailLike(s: string) {
    !Mentions(s, "redacted") && exists at, dot | 0 <= at < |s| && 0 <= dot < |s| :: SplitsAt(s, at, dot)
  }

  function IfEmail(s: Option<string>): Option<string> {
    if s.Some? && EmailLike(s.value) then s else None
  }

  /** `entities or {}`, when that is an object */
  function EntitiesOf(state: State): Option<Payload> {
    if !Truthy(state.entities) then Some(map[])
    else if state.entities.Obj? then Some(state.entities.fields)
    else None
  }

  function RawEmail(entities: Payload): Option<string> {
    if Get(entities, "raw_entities").Obj? then IfEmail(FirstText(Get(entities["raw_entities"].fields, "emails"))) else None
  }

  function CustomerEmail(state: State): Option<string> {
    var direct := IfEmail(FirstText(state.ticketEmail));
    match EntitiesOf(state)
    case None => direct
    case Some(entities) =>
      Or(direct,
         Or(IfEmail(FirstText(Get(entities, "customer_email"))),
            Or(IfEmail(FirstText(Get(entities, "email"))),
               Or(IfEmail(FirstText(Get(entities, "to"))),
                  Or(RawEmail(entities), IfEmail(state.inputEmail))))))
  }

  lemma CustomerEmailLike(state: State)
    ensures CustomerEmail(state).Some? ==> EmailLike(CustomerEmail(state).value)
  {
  }

  // ---- send_email ----

  function OrderId(entities: Payload): Option<string> {
    Or(FirstText(Get(entities, "order_id")), FirstText(Get(entities, "order_ids")))
  }

  function EmailSubject(state: State): string {
    var intent := if state.intent.Some? && state.intent.value != "" then state.intent.value else "general_inquiry";
    var order := if EntitiesOf(state).Some? then OrderId(EntitiesOf(state).value) else None;
    var orderText := if order.Some? then " for order #" + order.value else "";
    if intent == "refund_request" then "Refund request update" + orderText
    else if intent == "product_issue" then "Support update" + orderText
    else if intent == "billing_inquiry" then "Billing support update"
    else "Support request update"
  }

  function Recipient(payload: Payload, state: State): Option<string> {
    var to := if "to" in payload then payload["to"] else Get(payload, "recipient");
    Or(CustomerEmail(state), IfEmail(FirstText(to)))
  }

  function Body(payload: Payload, state: State): Option<string> {
    Or(FirstText(Get(payload, "body")), Or(FirstText(Get(payload, "draft")), FirstText(state.draftResponse)))
  }

  function Subject(payload: Payload, state: State): string {
    match FirstText(Get(payload, "subject"))
    case Some(subject) => subject
    case None => EmailSubject(state)
  }

  function EmailPayload(to: string, subject: string, body: string): Payload {
    map["to" := Str(to), "subject" := Str(subject), "body" := Str(body)]
  }

  function FieldsOf(item: Item): Payload {
    if HasObject(item) then item.payload.value.fields else map[]
  }

  predicate HasObject(item: Item) {
    item.Planned? && item.payload.Some? && item.payload.value.Obj?
  }

  function ReasonOr(item: Item, otherwise: Json): Json
    requires item.Planned?
  {
    if Truthy(item.reason) then item.reason else otherwise
  }

  /** None when there is nobody to write to or nothing to say. */
  function EmailAction(item: Item, state: State): Option<Item>
    requires item.Planned?
  {
    var payload := FieldsOf(item);
    match (Recipient(payload, state), Body(payload, state))
    case (Some(to), Some(body)) =>
      Some(Planned(SEND_EMAIL, Some(Obj(EmailPayload(to, Subject(payload, state), body))), ReasonOr(item, EMAIL_REASON), item.rest))
    case _ => None
  }

  /** Nobody to write to: no address of the customer is known, and what the proposal names is
      none either. */
  predicate Nobody(item: Item, state: State) {
    var payload := FieldsOf(item);
    var named := FirstText(if "to" in payload then payload["to"] else Get(payload, "recipient"));
    CustomerEmail(state).None? && (named.Some? ==> !EmailLike(named.value))
  }

  /** Nothing to say: neither the proposal nor the state has a text. */
  predicate NothingToSay(item: Item, state: State) {
    var payload := FieldsOf(item);
    FirstText(Get(payload, "body")).None? && FirstText(Get(payload, "draft")).None? && FirstText(state.draftResponse).None?
  }

  /** There is a message exactly when there is somebody to write to and something to say; it
      can be sent, and keeps the reason, if it has one, and all other keys. */
  method NormalizeSendEmail(item: Item, state: State) returns (action: Option<Item>)
    requires item.Planned?
    ensures action.None? <==> Nobody(item, state) || NothingToSay(item, state)
    ensures action.Some? ==> Sendable(action.value, state) && action.value.rest == item.rest
    ensures action.Some? && Truthy(item.reason) ==> action.value.reason == item.reason
    ensures action == EmailAction(item, state)
  {
    var payload := FieldsOf(item);
    if "recipient" in payload && "to" !in payload {
      payload := payload["to" := payload["recipient"]];
    }
    var to := CustomerEmail(state);
    if to.None? {
      var named := FirstText(Get(payload, "to"));
      if named.Some? && EmailLike(named.value) {
        to := named;
      }
    }
    var body := FirstText(Get(payload, "body"));
    if body.None? {
      body := FirstText(Get(payload, "draft"));
    }
    if body.None? {
      body := FirstText(state.draftResponse);
    }
    var subject := FirstText(Get(payload, "subject"));
    DistinctKeys();
    if to.None? || body.None? {
      return None;
    }
    var email := EmailPayload(to.value, if subject.Some? then subject.value else EmailSubject(state), body.value);
    action := Some(Planned(SEND_EMAIL, Some(Obj(email)), ReasonOr(item, EMAIL_REASON), item.rest));
    EmailActionSendable(item, state);
  }

  lemma DistinctKeys()
    ensures "to" != "body" && "to" != "draft" && "to" != "subject"
  {
    assert "to"[0] != "body"[0] && "to"[0] != "draft"[0] && "to"[0] != "subject"[0];
  }

  predicate GoodEmail(to: string, subject: string, body: string, state: State) {
    && EmailLike(to) && CleanText(subject) && CleanText(body)
    && (if CustomerEmail(state).Some? then to == CustomerEmail(state).value else CleanText(to))
  }

  /** A message that can be sent: to the customer where an address is known and to what looks
      like an address in any case, with a subject and a body. */
  ghost predicate Sendable(item: Item, state: State) {
    && item.Planned? && item.tool == SEND_EMAIL && Truthy(item.reason)
    && exists to, subject, body :: GoodEmail(to, subject, body, state) && item.payload == Some(Obj(EmailPayload(to, subject, body)))
  }

  lemma EmailSubjectClean(state: State)
    ensures CleanText(EmailSubject(state))
  {
    if EntitiesOf(state).Some? {
      var entities := EntitiesOf(state).value;
      FirstTextClean(Get(entities, "order_id"));
      FirstTextClean(Get(entities, "order_ids"));
    }
  }

  lemma SubjectClean(payload: Payload, state: State)
    ensures CleanText(Subject(payload, state))
  {
    FirstTextClean(Get(payload, "subject"));
    EmailSubjectClean(state);
  }

  lemma BodyClean(payload: Payload, state: State)
    ensures Body(payload, state).Some? ==> CleanText(Body(payload, state).value)
  {
    FirstTextClean(Get(payload, "body"));
    FirstTextClean(Get(payload, "draft"));
    FirstTextClean(state.draftResponse);
  }

  lemma RecipientGood(payload: Payload, state: State)
    ensures var to := Recipient(payload, state);
            to.Some? ==>
              && EmailLike(to.value)
              && (if CustomerEmail(state).Some? then to == CustomerEmail(state) else CleanText(to.value))
  {
    CustomerEmailLike(state);
    FirstTextClean(if "to" in payload then payload["to"] else Get(payload, "recipient"));
  }

  lemma EmailActionSendable(item: Item, state: State)
    requires item.Planned? && EmailAction(item, state).Some?
    ensures Sendable(EmailAction(item, state).value, state)
  {
    var payload := FieldsOf(item);
    RecipientGood(payload, state);
    BodyClean(payload, state);
    SubjectClean(payload, state);
    var to, subject, body := Recipient(payload, state).value, Subject(payload, state), Body(payload, state).value;
    assert GoodEmail(to, subject, body, state);
    assert EmailAction(item, state).value.payload == Some(Obj(EmailPayload(to, subject, body)));
  }

  lemma GoodEmailReread(to: string, subject: string, body: string, state: State)
    requires GoodEmail(to, subject, body, state)
    ensures var payload := EmailPayload(to, subject, body);
            && Recipient(payload, state) == Some(to) && Subject(payload, state) == subject && Body(payload, state) == Some(body)
  {
    FirstTextOfClean(subject);
    FirstTextOfClean(body);
    if CustomerEmail(state).None? {
      FirstTextOfClean(to);
    }
  }

  /** Normalizing a message that can be sent leaves it as it is. */
  lemma EmailActionStable(item: Item, state: State)
    requires Sendable(item, state)
    ensures EmailAction(item, state) == Some(item)
  {
    var to, subject, body :| GoodEmail(to, subject, body, state) && item.payload == Some(Obj(EmailPayload(to, subject, body)));
    GoodEmailReread(to, subject, body, state);
  }

  // ---- create_crm_note ----

  function DefaultNote(state: State): string {
    "Agent prepared support response for "
    + Spaced(if state.intent.Some? then state.intent.value else "general_inquiry") + "."
  }

  /** s.replace("_", " ") */
  function Spaced(s: string): string {
    seq(|s|, i requires 0 <= i < |s| => if s[i] == '_' then ' ' else s[i])
  }

  function NoteOf(payload: Payload, state: State): string {
    match FirstText(Get(payload, "note"))
    case Some(note) => note
    case None => DefaultNote(state)
  }

  function PendingNote(note: string): string {
    var prepared := Prepared(note);
    if Mentions(prepared, "approval") then prepared else prepared + PENDING
  }

  function AddTag(tags: seq<Json>, tag: string): seq<Json> {
    if Str(tag) in tags then tags else tags + [Str(tag)]
  }

  function TagsOf(payload: Payload, entities: Payload, state: State): seq<Json> {
    var tags := if Get(payload, "tags").Arr? then payload["tags"].items else [];
    var withOrder := if OrderId(entities).Some? then AddTag(tags, "order") else tags;
    if state.intent.Some? then AddTag(withOrder, state.intent.value) else withOrder
  }

  function Labelled(payload: Payload, entities: Payload, state: State): Payload {
    var email := match CustomerEmail(state) case Some(address) => Str(address) case None => Null;
    var withEmail := if "customer_email" in payload then payload else payload["customer_email" := email];
    withEmail["tags" := Arr(TagsOf(payload, entities, state))]
  }

  function NotePayload(payload: Payload, state: State, hasEmail: bool): Payload {
    var note := NoteOf(payload, state);
    var noted := payload["note" := Str(if hasEmail then PendingNote(note) else note)];
    match EntitiesOf(state)
    case None => noted
    case Some(entities) => Labelled(noted, entities, state)
  }

  function NoteAction(item: Item, state: State, hasEmail: bool): Item
    requires item.Planned?
  {
    Planned(CRM_NOTE, Some(Obj(NotePayload(FieldsOf(item), state, hasEmail))), ReasonOr(item, NOTE_REASON), item.rest)
  }

  method NormalizeCrmNote(item: Item, state: State, hasEmail: bool) returns (action: Item)
    requires item.Planned?
    ensures action == NoteAction(item, state, hasEmail)
  {
    var payload := FieldsOf(item);
    var found := FirstText(Get(payload, "note"));
    var note := if found.Some? then found.value else DefaultNote(state);
    if hasEmail {
      note := Prepared(note);
      if !Mentions(note, "approval") {
        note := note + PENDING;
      }
    }
    payload := payload["note" := Str(note)];
    var entities := EntitiesOf(state);
    if entities.Some? {
      var email := CustomerEmail(state);
      var tags := if Get(payload, "tags").Arr? then payload["tags"].items else [];
      if "customer_email" !in payload {
        payload := payload["customer_email" := if email.Some? then Str(email.value) else Null];
      }
      if OrderId(entities.value).Some? && Str("order") !in tags {
        tags := tags + [Str("order")];
      }
      if state.intent.Some? && Str(state.intent.value) !in tags {
        tags := tags + [Str(state.intent.value)];
      }
      payload := payload["tags" := Arr(tags)];
    }
    action := Planned(CRM_NOTE, Some(Obj(payload)), ReasonOr(item, NOTE_REASON), item.rest);
  }

  /** A note in which no word says that a message was sent, and that mentions an approval. */
  ghost predicate Careful(note: string) {
    CleanText(note) && NoneSaysSent(note) && Mentions(note, "approval")
  }

  lemma CarefulStays(note: string)
    requires Careful(note)
    ensures PendingNote(note) == note
  {
    PreparedWhereNeeded(note);
  }

  lemma MentionsLater(a: string, b: string, needle: string)
    requires Mentions(b, needle)
    ensures Mentions(a + b, needle)
  {
    var k := Find(Lower(b), needle, 0).value;
    assert OccursAt(Lower(b), needle, k);
    assert Lower(a + b) == Lower(a) + Lower(b);
    assert OccursAt(Lower(a + b), needle, |a| + k);
  }

  lemma PendingMentionsApproval()
    ensures Mentions(PENDING, "approval")
  {
    var word := " approval" + ".";
    assert Lower(word)[1..9] == "approval";
    assert OccursAt(Lower(word), "approval", 1);
    var before := " Outbound" + " customer" + " email" + " is" + " pending" + " human";
    MentionsLater(before, word, "approval");
    assert PENDING == before + word;
  }

  lemma PreparedClean(note: string)
    requires CleanText(note)
    ensures CleanText(Prepared(note)) && CleanText(Prepared(note) + PENDING)
  {
    PreparedEnds(note);
  }

  lemma PendingNoteCareful(note: string)
    requires CleanText(note)
    ensures Careful(PendingNote(note))
  {
    PreparedTwice(note);
    PreparedClean(note);
    if !Mentions(Prepared(note), "approval") {
      PendingStays();
      PreparedAppend(Prepared(note), PENDING);
      PendingMentionsApproval();
      MentionsLater(Prepared(note), PENDING, "approval");
    }
    PreparedWhereNeeded(PendingNote(note));
  }

  lemma DefaultNoteClean(state: State)
    ensures CleanText(DefaultNote(state))
  {
  }

  lemma NoteOfClean(payload: Payload, state: State)
    ensures CleanText(NoteOf(payload, state))
  {
    FirstTextClean(Get(payload, "note"));
    DefaultNoteClean(state);
  }

  ghost predicate NoteSettled(payload: Payload, state: State, hasEmail: bool) {
    && "note" in payload && payload["note"].Str? && CleanText(payload["note"].s)
    && (hasEmail ==> Careful(payload["note"].s))
  }

  predicate LabelsSettled(payload: Payload, entities: Payload, state: State) {
    && "customer_email" in payload && "tags" in payload && payload["tags"].Arr?
    && TagsOf(payload, entities, state) == payload["tags"].items
  }

  lemma TagsSettle(payload: Payload, entities: Payload, state: State, labelled: Payload)
    requires labelled == Labelled(payload, entities, state)
    ensures LabelsSettled(labelled, entities, state)
    ensures "note" in payload ==> "note" in labelled && labelled["note"] == payload["note"]
  {
    assert "note"[0] != "tags"[0];
    assert labelled["tags"] == Arr(TagsOf(payload, entities, state));
  }

  lemma NoteSettles(payload: Payload, state: State, hasEmail: bool)
    ensures NoteSettled(NotePayload(payload, state, hasEmail), state, hasEmail)
    ensures EntitiesOf(state).Some? ==>
              LabelsSettled(NotePayload(payload, state, hasEmail), EntitiesOf(state).value, state)
  {
    var note := NoteOf(payload, state);
    NoteOfClean(payload, state);
    PendingNoteCareful(note);
    var noted := payload["note" := Str(if hasEmail then PendingNote(note) else note)];
    assert NoteSettled(noted, state, hasEmail);
    if EntitiesOf(state).Some? {
      TagsSettle(noted, EntitiesOf(state).value, state, NotePayload(payload, state, hasEmail));
    }
  }

  lemma SameUpdate(fields: Payload, key: string)
    requires key in fields
    ensures fields[key := fields[key]] == fields
  {
  }

  lemma SettledNoteStays(payload: Payload, state: State, hasEmail: bool)
    requires NoteSettled(payload, state, hasEmail)
    requires EntitiesOf(state).Some? ==> LabelsSettled(payload, EntitiesOf(state).value, state)
    ensures NotePayload(payload, state, hasEmail) == payload
  {
    FirstTextOfClean(payload["note"].s);
    if hasEmail {
      CarefulStays(payload["note"].s);
    }
    SameUpdate(payload, "note");
    if EntitiesOf(state).Some? {
      SameUpdate(payload, "tags");
    }
  }

  // ---- The list of actions ----

  /** `item.get("payload") or {}` */
  function WithPayload(item: Item): Item
    requires item.Planned?
  {
    if item.payload.Some? && Truthy(item.payload.value) then item else item.(payload := Some(Obj(map[])))
  }

  function Candidate(item: Item, state: State): Option<Item> {
    if item.NotAnObject? || !Listed(item.tool) then None
    else if item.tool == SEND_EMAIL then EmailAction(WithPayload(item), state)
    else Some(WithPayload(item))
  }

  function Candidates(items: seq<Item>, state: State): seq<Item> {
    if |items| == 0 then []
    else
      var before := Candidates(items[..|items| - 1], state);
      match Candidate(items[|items| - 1], state)
      case Some(action) => before + [action]
      case None => before
  }

  predicate HasEmail(items: seq<Item>) {
    exists i :: 0 <= i < |items| && IsEmail(items[i])
  }

  predicate IsEmail(item: Item) {
    item.Planned? && item.tool == SEND_EMAIL
  }

  const ADDED := Planned(SEND_EMAIL, Some(Obj(map[])), ADDED_REASON, map[])

  function WithEmail(items: seq<Item>, state: State): seq<Item> {
    match EmailAction(ADDED, state)
    case Some(email) => if HasEmail(items) then items else items + [email]
    case None => items
  }

  function Finished(item: Item, state: State, hasEmail: bool): Item {
    if item.Planned? && item.tool == CRM_NOTE then NoteAction(item, state, hasEmail) else item
  }

  function AllFinished(items: seq<Item>, state: State, hasEmail: bool): (finished: seq<Item>)
    ensures |finished| == |items|
    ensures forall i | 0 <= i < |items| :: finished[i] == Finished(items[i], state, hasEmail)
  {
    seq(|items|, i requires 0 <= i < |items| => Finished(items[i], state, hasEmail))
  }

  /** What a list of proposals comes to; anything that is no list counts as an empty one. */
  function Normalized(raw: Option<seq<Item>>, state: State): seq<Item> {
    var candidates := WithEmail(Candidates(if raw.Some? then raw.value else [], state), state);
    AllFinished(candidates, state, HasEmail(candidates))
  }

  method CollectCandidates(items: seq<Item>, state: State) returns (candidates: seq<Item>, hasEmail: bool)
    ensures candidates == Candidates(items, state) && hasEmail == HasEmail(candidates)
  {
    candidates, hasEmail := [], false;
    for i := 0 to |items|
      invariant candidates == Candidates(items[..i], state) && hasEmail == HasEmail(candidates)
    {
      assert items[..i + 1][..i] == items[..i];
      if items[i].NotAnObject? || !Listed(items[i].tool) {
        continue;
      }
      var action := WithPayload(items[i]);
      if action.tool == SEND_EMAIL {
        var email := NormalizeSendEmail(action, state);
        if email.None? {
          continue;
        }
        action := email.value;
      }
      HasEmailGrows(candidates, action);
      candidates := candidates + [action];
      hasEmail := hasEmail || action.tool == SEND_EMAIL;
    }
    assert items[..|items|] == items;
  }

  lemma HasEmailGrows(items: seq<Item>, item: Item)
    ensures HasEmail(items + [item]) <==> HasEmail(items) || IsEmail(item)
  {
    if i :| 0 <= i < |items| && IsEmail(items[i]) {
      assert IsEmail((items + [item])[i]);
    }
    assert (items + [item])[|items|] == item;
  }

  method NormalizePlannedActions(raw: Option<seq<Item>>, state: State) returns (normalized: seq<Item>)
    ensures normalized == Normalized(raw, state)
  {
    var items := if raw.Some? then raw.value else [];
    var candidates, hasEmail := CollectCandidates(items, state);
    if !hasEmail {
      var email := NormalizeSendEmail(ADDED, state);
      if email.Some? {
        HasEmailGrows(candidates, email.value);
        candidates := candidates + [email.value];
        hasEmail := true;
      }
    }
    normalized := FinishAll(candidates, state, hasEmail);
  }

  /** The second loop, over the candidates. */
  method FinishAll(candidates: seq<Item>, state: State, hasEmail: bool) returns (normalized: seq<Item>)
    ensures normalized == AllFinished(candidates, state, hasEmail)
  {
    normalized := [];
    for i := 0 to |candidates|
      invariant |normalized| == i
      invariant forall j | 0 <= j < i :: normalized[j] == Finished(candidates[j], state, hasEmail)
    {
      if candidates[i].Planned? && candidates[i].tool == CRM_NOTE {
        var note := NormalizeCrmNote(candidates[i], state, hasEmail);
        normalized := normalized + [note];
      } else {
        normalized := normalized + [candidates[i]];
      }
    }
  }

  // ---- What normalization promises ----

  /** An action that is ready: one of the three tools, and as its tool needs it. */
  ghost predicate Ready(item: Item, state: State, hasEmail: bool) {
    && item.Planned? && Listed(item.tool)
    && (item.tool == SEND_EMAIL ==> Sendable(item, state))
    && (item.tool == CRM_NOTE ==> HasObject(item) && NoteReady(FieldsOf(item), state, hasEmail) && Truthy(item.reason))
    && (item.tool == EXPORT_REPORT ==> PayloadSet(item))
  }

  /** What `or {}` leaves. */
  predicate PayloadSet(item: Item) {
    item.Planned? && item.payload.Some? && (Truthy(item.payload.value) || item.payload.value == Obj(map[]))
  }

  ghost predicate NoteReady(payload: Payload, state: State, hasEmail: bool) {
    && NoteSettled(payload, state, hasEmail)
    && (EntitiesOf(state).Some? ==> LabelsSettled(payload, EntitiesOf(state).value, state))
  }

  lemma ToolsDiffer()
    ensures SEND_EMAIL != CRM_NOTE && SEND_EMAIL != EXPORT_REPORT && CRM_NOTE != EXPORT_REPORT
  {
    assert "send_email"[0] != "create_crm_note"[0] && "send_email"[0] != "export_report"[0];
    assert "create_crm_note"[0] != "export_report"[0];
  }

  /** What a candidate is before the notes are finished. */
  ghost predicate Collected(item: Item, state: State) {
    && item.Planned? && Listed(item.tool)
    && (item.tool == SEND_EMAIL ==> Sendable(item, state))
    && (item.tool != SEND_EMAIL ==> PayloadSet(item))
  }

  lemma CandidateCollected(item: Item, state: State)
    requires Candidate(item, state).Some?
    ensures Collected(Candidate(item, state).value, state)
  {
    if item.tool == SEND_EMAIL {
      EmailActionSendable(WithPayload(item), state);
    }
  }

  lemma {:induction false} CandidatesCollected(items: seq<Item>, state: State)
    ensures forall i | 0 <= i < |Candidates(items, state)| :: Collected(Candidates(items, state)[i], state)
  {
    if |items| == 0 {
    } else {
      CandidatesCollected(items[..|items| - 1], state);
      if Candidate(items[|items| - 1], state).Some? {
        CandidateCollected(items[|items| - 1], state);
      }
    }
  }

  lemma FinishedReady(item: Item, state: State, hasEmail: bool)
    requires Collected(item, state)
    ensures Ready(Finished(item, state, hasEmail), state, hasEmail)
    ensures IsEmail(Finished(item, state, hasEmail)) <==> IsEmail(item)
  {
    ToolsDiffer();
    if item.tool == CRM_NOTE {
      NoteSettles(FieldsOf(item), state, hasEmail);
    }
  }

  /** Every planned action is ready; notes are careful when a message is planned too; and
      whether one is, the result itself says. */
  lemma NormalizedReady(raw: Option<seq<Item>>, state: State)
    ensures var result := Normalized(raw, state);
            forall i | 0 <= i < |result| :: Ready(result[i], state, HasEmail(result))
  {
    var items := if raw.Some? then raw.value else [];
    var candidates := WithEmail(Candidates(items, state), state);
    CandidatesCollected(items, state);
    if EmailAction(ADDED, state).Some? {
      EmailActionSendable(ADDED, state);
    }
    var result := Normalized(raw, state);
    var hasEmail := HasEmail(candidates);
    forall i | 0 <= i < |result|
      ensures Ready(result[i], state, hasEmail) && (IsEmail(result[i]) <==> IsEmail(candidates[i]))
    {
      FinishedReady(candidates[i], state, hasEmail);
    }
    SameEmails(candidates, result);
  }

  lemma SameEmails(a: seq<Item>, b: seq<Item>)
    requires |a| == |b| && forall i | 0 <= i < |a| :: IsEmail(a[i]) <==> IsEmail(b[i])
    ensures HasEmail(a) <==> HasEmail(b)
  {
    if i :| 0 <= i < |a| && IsEmail(a[i]) {
      assert IsEmail(b[i]);
    }
  }

  lemma ReadyStays(item: Item, state: State, hasEmail: bool)
    requires Ready(item, state, hasEmail)
    ensures Candidate(item, state) == Some(item) && Finished(item, state, hasEmail) == item
  {
    ToolsDiffer();
    if item.tool == SEND_EMAIL {
      EmailActionStable(item, state);
    } else if item.tool == CRM_NOTE {
      SettledNoteStays(FieldsOf(item), state, hasEmail);
    }
  }

  lemma {:induction false} AllCandidates(items: seq<Item>, state: State)
    requires forall i | 0 <= i < |items| :: Candidate(items[i], state) == Some(items[i])
    ensures Candidates(items, state) == items
  {
    if |items| == 0 {
    } else {
      AllCandidates(items[..|items| - 1], state);
      assert items == items[..|items| - 1] + [items[|items| - 1]];
    }
  }

  /** A message is planned whenever one could be: at the latest the drafted one is added. */
  lemma EmailPlannedIf(raw: Option<seq<Item>>, state: State)
    ensures EmailAction(ADDED, state).Some? ==> HasEmail(Normalized(raw, state))
    ensures CustomerEmail(state).Some? && FirstText(state.draftResponse).Some? ==> HasEmail(Normalized(raw, state))
  {
    var items := if raw.Some? then raw.value else [];
    var candidates := WithEmail(Candidates(items, state), state);
    if EmailAction(ADDED, state).Some? {
      HasEmailGrows(Candidates(items, state), EmailAction(ADDED, state).value);
      var i :| 0 <= i < |candidates| && IsEmail(candidates[i]);
      ToolsDiffer();
      assert IsEmail(Normalized(raw, state)[i]);
    }
  }

  /** Normalizing what was normalized changes nothing. */
  lemma NormalizedTwice(raw: Option<seq<Item>>, state: State)
    ensures Normalized(Some(Normalized(raw, state)), state) == Normalized(raw, state)
  {
    var result := Normalized(raw, state);
    NormalizedReady(raw, state);
    EmailPlannedIf(raw, state);
    forall i | 0 <= i < |result|
      ensures Candidate(result[i], state) == Some(result[i])
      ensures Finished(result[i], state, HasEmail(result)) == result[i]
    {
      ReadyStays(result[i], state, HasEmail(result));
    }
    AllCandidates(result, state);
    assert WithEmail(result, state) == result;
    assert AllFinished(result, state, HasEmail(result)) == result;
  }

  // ---- What normalization leaves alone ----

  /** Where in the list the proposals are that become actions. */
  function Survivors(items: seq<Item>, state: State, n: nat): seq<nat>
    requires n <= |items|
  {
    if n == 0 then []
    else
      var before := Survivors(items, state, n - 1);
      if Candidate(items[n - 1], state).Some? then before + [n - 1] else before
  }

  lemma {:induction false} SurvivorsRise(items: seq<Item>, state: State, n: nat)
    requires n <= |items|
    ensures var at := Survivors(items, state, n);
            && (forall j | 0 <= j < |at| :: at[j] < n)
            && (forall i, j | 0 <= i < j < |at| :: at[i] < at[j])
            && (forall i :: i in at <==> 0 <= i < n && Candidate(items[i], state).Some?)
  {
    if n == 0 {
    } else {
      SurvivorsRise(items, state, n - 1);
    }
  }

  lemma {:induction false} CandidatesAre(items: seq<Item>, state: State, n: nat)
    requires n <= |items|
    ensures var at, candidates := Survivors(items, state, n), Candidates(items[..n], state);
            && |candidates| == |at|
            && forall j | 0 <= j < |at| :: at[j] < n && Candidate(items[at[j]], state) == Some(candidates[j])
  {
    if n == 0 {
    } else {
      CandidatesAre(items, state, n - 1);
      assert items[..n][..n - 1] == items[..n - 1];
    }
  }

  /** The action that a proposal becomes. */
  predicate Becomes(item: Item, action: Item, state: State) {
    && item.Planned? && action.Planned? && action.tool == item.tool && action.rest == item.rest
    && (Truthy(item.reason) ==> action.reason == item.reason)
    && (item.tool == EXPORT_REPORT && PayloadSet(item) ==> action.payload == item.payload)
    && (item.tool == CRM_NOTE ==> HasObject(action) && NoteKeeps(FieldsOf(item), FieldsOf(action)))
    && (item.tool == SEND_EMAIL ==> HasObject(action) && EmailKeeps(FieldsOf(item), FieldsOf(action), state))
  }

  /** A note keeps all its other keys, the customer it names and its tags. */
  predicate NoteKeeps(payload: Payload, after: Payload) {
    && (forall key | key in payload && key != "note" && key != "tags" :: key in after && after[key] == payload[key])
    && (Get(payload, "tags").Arr? ==> Get(after, "tags").Arr? && payload["tags"].items <= after["tags"].items)
  }

  /** A message keeps the subject and body it came with, and takes the draft only where it
      came with none. */
  predicate EmailKeeps(payload: Payload, after: Payload, state: State) {
    && (FirstText(Get(payload, "subject")).Some? ==> Get(after, "subject") == Str(FirstText(payload["subject"]).value))
    && (FirstText(Get(payload, "body")).Some? ==> Get(after, "body") == Str(FirstText(payload["body"]).value))
    && (FirstText(Get(payload, "body")).None? && FirstText(Get(payload, "draft")).None? ==>
          FirstText(state.draftResponse).Some? && Get(after, "body") == Str(FirstText(state.draftResponse).value))
  }

  lemma NotePayloadKeeps(payload: Payload, state: State, hasEmail: bool)
    ensures NoteKeeps(payload, NotePayload(payload, state, hasEmail))
  {
    assert "note"[0] != "tags"[0] && "note"[0] != "customer_email"[0] && "tags"[0] != "customer_email"[0];
  }

  lemma EmailPayloadKeeps(payload: Payload, state: State)
    requires Recipient(payload, state).Some? && Body(payload, state).Some?
    ensures EmailKeeps(payload,
                       EmailPayload(Recipient(payload, state).value, Subject(payload, state), Body(payload, state).value), state)
  {
    assert "subject"[0] != "to"[0] && "subject"[0] != "body"[0] && "to"[0] != "body"[0];
  }

  lemma SurvivorBecomes(item: Item, state: State, hasEmail: bool)
    requires Candidate(item, state).Some?
    ensures Becomes(item, Finished(Candidate(item, state).value, state, hasEmail), state)
  {
    ToolsDiffer();
    if item.tool == SEND_EMAIL {
      EmailPayloadKeeps(FieldsOf(WithPayload(item)), state);
    } else if item.tool == CRM_NOTE {
      NotePayloadKeeps(FieldsOf(WithPayload(item)), state, hasEmail);
    }
  }

  /** The surviving proposals are all there, in order, each become its action; behind them
      there is at most one more, the added message, and that only where no proposal was one. */
  lemma NormalizedKeepsOrder(items: seq<Item>, state: State)
    ensures var result, at := Normalized(Some(items), state), Survivors(items, state, |items|);
            && (|result| == |at| || (|result| == |at| + 1 && IsEmail(result[|at|])))
            && (forall j | 0 <= j < |at| :: at[j] < |items| && Becomes(items[at[j]], result[j], state))
            && (|result| > |at| ==> forall j | 0 <= j < |at| :: !IsEmail(result[j]))
  {
    var result, at := Normalized(Some(items), state), Survivors(items, state, |items|);
    var candidates := Candidates(items, state);
    var all := WithEmail(candidates, state);
    CandidatesAre(items, state, |items|);
    assert items[..|items|] == items;
    ToolsDiffer();
    forall j | 0 <= j < |at|
      ensures at[j] < |items| && Becomes(items[at[j]], result[j], state)
      ensures |result| > |at| ==> !IsEmail(result[j])
    {
      SurvivorBecomes(items[at[j]], state, HasEmail(all));
      assert all[j] == candidates[j];
    }
  }
}
