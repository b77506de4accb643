/** The actions that app/agents/nodes.py plans, each told by the proposal it comes from and by
    what the state says of the customer, the draft and the intent. The functions that plan them
    appear only as what is explained: recipient, subject, body, note and tags are described by
    the fields they are read from, in the order in which these are looked at. */
module PlannedActions {
  import opened Domain
  import opened Words
  import opened Planning
  import opened PlanningMeaning

  // ---- Messages ----

  /** The fields of the payload that an item proposes. */
  function Fields(item: Item): Payload {
    if item.Planned? && item.payload.Some? && item.payload.value.Obj? then item.payload.value.fields else map[]
  }

  function Named(fields: Payload): Json {
    if "to" in fields then fields["to"] else Field(fields, "recipient")
  }

  /** The customer where an address is known, and else whom the proposal names. */
  ghost predicate AddressedTo(fields: Payload, state: State, to: string) {
    Known(state, to) || ((forall text :: !Known(state, text)) && ReadsAddress(Named(fields), to))
  }

  ghost predicate ReadsNothing(value: Json) {
    forall text :: !Reads(value, text)
  }

  ghost predicate BodyIs(fields: Payload, state: State, body: string) {
    || Reads(Field(fields, "body"), body)
    || (ReadsNothing(Field(fields, "body"))
        && (|| Reads(Field(fields, "draft"), body)
            || (ReadsNothing(Field(fields, "draft")) && Reads(state.draftResponse, body))))
  }

  ghost predicate OrderIs(state: State, order: string) {
    Reads(Entity(state, "order_id"), order) || (ReadsNothing(Entity(state, "order_id")) && Reads(Entity(state, "order_ids"), order))
  }

  /** What is added to a subject where an order is known. */
  ghost predicate SuffixIs(state: State, suffix: string) {
    || (exists order :: OrderIs(state, order) && suffix == " for order #" + order)
    || ((forall order :: !OrderIs(state, order)) && suffix == "")
  }

  ghost predicate UsualSubject(state: State, subject: string) {
    if state.intent == Some("refund_request") then
      exists suffix :: SuffixIs(state, suffix) && subject == "Refund request update" + suffix
    else if state.intent == Some("product_issue") then
      exists suffix :: SuffixIs(state, suffix) && subject == "Support update" + suffix
    else if state.intent == Some("billing_inquiry") then subject == "Billing support update"
    else subject == "Support request update"
  }

  ghost predicate SubjectIs(fields: Payload, state: State, subject: string) {
    || Reads(Field(fields, "subject"), subject)
    || (ReadsNothing(Field(fields, "subject")) && UsualSubject(state, subject))
  }

  predicate ReasonKept(item: Item, action: Item, otherwise: string) {
    item.Planned? && action.Planned? && action.reason == if Truthy(item.reason) then item.reason else Str(otherwise)
  }

  predicate Says(action: Item, to: string, subject: string, body: string) {
    action.Planned? && action.payload == Some(Obj(map["to" := Str(to), "subject" := Str(subject), "body" := Str(body)]))
  }

  /** The message that a proposal becomes. */
  ghost predicate MessageFrom(item: Item, action: Item, state: State) {
    && item.Planned? && action.Planned? && action.tool == Str("send_email") && action.rest == item.rest
    && ReasonKept(item, action, "Send the reviewed support response to the customer after approval.")
    && exists to, subject, body ::
         && Says(action, to, subject, body)
         && AddressedTo(Fields(item), state, to) && SubjectIs(Fields(item), state, subject) && BodyIs(Fields(item), state, body)
  }

  /** There is somebody to write to and something to say. */
  ghost predicate CanWrite(item: Item, state: State) {
    && item.Planned? && (exists to :: AddressedTo(Fields(item), state, to)) && (exists body :: BodyIs(Fields(item), state, body))
  }

  lemma ReadsMeans(value: Json)
    ensures forall text :: FirstText(value) == Some(text) <==> Reads(value, text)
    ensures FirstText(value).None? <==> ReadsNothing(value)
  {
    FirstTextMeans(value);
    if FirstText(value).Some? {
      assert Reads(value, FirstText(value).value);
    }
  }

  lemma RecipientMeans(fields: Payload, state: State)
    ensures forall to :: Recipient(fields, state) == Some(to) <==> AddressedTo(fields, state, to)
  {
    CustomerMeans(state);
    IfEmailMeans(Named(fields));
    if CustomerEmail(state).Some? {
      assert Known(state, CustomerEmail(state).value);
    }
  }

  lemma BodyMeans(fields: Payload, state: State)
    ensures forall body :: Body(fields, state) == Some(body) <==> BodyIs(fields, state, body)
  {
    ReadsMeans(Field(fields, "body"));
    ReadsMeans(Field(fields, "draft"));
    ReadsMeans(state.draftResponse);
  }

  /** The order number as the code reads it. */
  function OrderOf(state: State): Option<string> {
    if EntitiesOf(state).Some? then OrderId(EntitiesOf(state).value) else None
  }

  lemma OrderMeans(state: State)
    ensures forall order :: OrderOf(state) == Some(order) <==> OrderIs(state, order)
  {
    ReadsMeans(Entity(state, "order_id"));
    ReadsMeans(Entity(state, "order_ids"));
  }

  function SuffixOf(state: State): string {
    if OrderOf(state).Some? then " for order #" + OrderOf(state).value else ""
  }

  lemma SuffixMeans(state: State)
    ensures forall suffix :: suffix == SuffixOf(state) <==> SuffixIs(state, suffix)
  {
    OrderMeans(state);
    if OrderOf(state).Some? {
      assert OrderIs(state, OrderOf(state).value);
    }
  }

  lemma UsualSubjectMeans(state: State)
    ensures forall subject :: subject == EmailSubject(state) <==> UsualSubject(state, subject)
  {
    SuffixMeans(state);
    assert SuffixIs(state, SuffixOf(state));
  }

  lemma SubjectMeans(fields: Payload, state: State)
    ensures forall subject :: subject == Subject(fields, state) <==> SubjectIs(fields, state, subject)
  {
    ReadsMeans(Field(fields, "subject"));
    UsualSubjectMeans(state);
  }

  /** A proposal becomes a message exactly if there is somebody to write to and something to
      say, and then this one. */
  lemma MessageMeans(item: Item, state: State)
    requires item.Planned?
    ensures EmailAction(item, state).Some? <==> CanWrite(item, state)
    ensures EmailAction(item, state).Some? ==> MessageFrom(item, EmailAction(item, state).value, state)
  {
    var fields := Fields(item);
    RecipientMeans(fields, state);
    BodyMeans(fields, state);
    SubjectMeans(fields, state);
    var to, body := Recipient(fields, state), Body(fields, state);
    if to.Some? && body.Some? {
      assert AddressedTo(fields, state, to.value) && BodyIs(fields, state, body.value);
      assert Says(EmailAction(item, state).value, to.value, Subject(fields, state), body.value);
    }
  }

  // ---- Notes ----

  predicate SpacesFor(s: string, spaced: string) {
    |spaced| == |s| && forall i | 0 <= i < |s| :: spaced[i] == if s[i] == '_' then ' ' else s[i]
  }

  ghost predicate UsualNote(state: State, note: string) {
    var intent := if state.intent.Some? then state.intent.value else "general_inquiry";
    exists spaced :: SpacesFor(intent, spaced) && note == "Agent prepared support response for " + spaced + "."
  }

  ghost predicate NoteIs(fields: Payload, state: State, note: string) {
    Reads(Field(fields, "note"), note) || (ReadsNothing(Field(fields, "note")) && UsualNote(state, note))
  }

  /** How the note is written while a message waits for approval. */
  ghost predicate WrittenCarefully(note: string, written: string) {
    var prepared := Prepared(note);
    if AnyCase(prepared, "approval") then written == prepared
    else written == prepared + " Outbound customer email is pending human approval."
  }

  predicate TagsAre(own: Json, order: bool, intent: Option<string>, tags: seq<Json>) {
    var given := if own.Arr? then own.items else [];
    var labelled := if order && Str("order") !in given then given + [Str("order")] else given;
    tags == if intent.Some? && Str(intent.value) !in labelled then labelled + [Str(intent.value)] else labelled
  }

  ghost predicate CustomerNoted(fields: Payload, state: State, noted: Json) {
    if "customer_email" in fields then noted == fields["customer_email"]
    else
      || (exists address :: Known(state, address) && noted == Str(address))
      || ((forall address :: !Known(state, address)) && noted == Null)
  }

  ghost predicate LabelsAre(fields: Payload, state: State, after: Payload) {
    && "customer_email" in after && CustomerNoted(fields, state, after["customer_email"])
    && "tags" in after && after["tags"].Arr?
    && TagsAre(Field(fields, "tags"), exists order :: OrderIs(state, order), state.intent, after["tags"].items)
  }

  predicate SameField(fields: Payload, after: Payload, key: string) {
    (key in after <==> key in fields) && (key in fields ==> after[key] == fields[key])
  }

  ghost predicate NoteSays(fields: Payload, after: Payload, state: State, pending: bool) {
    && "note" in after && after["note"].Str?
    && exists note :: NoteIs(fields, state, note)
                      && (if pending then WrittenCarefully(note, after["note"].s) else after["note"].s == note)
  }

  ghost predicate OthersKept(fields: Payload, after: Payload) {
    forall key | key !in ["note", "customer_email", "tags"] :: SameField(fields, after, key)
  }

  ghost predicate NotePayloadFrom(fields: Payload, after: Payload, state: State, pending: bool) {
    && OthersKept(fields, after) && NoteSays(fields, after, state, pending)
    && (if Legible(state) then LabelsAre(fields, state, after)
        else SameField(fields, after, "customer_email") && SameField(fields, after, "tags"))
  }

  /** The note that a proposal becomes; `pending` is whether a message is planned too. */
  ghost predicate NoteFrom(item: Item, action: Item, state: State, pending: bool) {
    && item.Planned? && action.Planned? && action.tool == Str("create_crm_note") && action.rest == item.rest
    && ReasonKept(item, action, "Record an internal, audited support note.")
    && action.payload.Some? && action.payload.value.Obj?
    && NotePayloadFrom(Fields(item), action.payload.value.fields, state, pending)
  }

  lemma NoteOfMeans(fields: Payload, state: State)
    ensures NoteIs(fields, state, NoteOf(fields, state))
  {
    ReadsMeans(Field(fields, "note"));
    var intent := if state.intent.Some? then state.intent.value else "general_inquiry";
    assert SpacesFor(intent, Spaced(intent));
    assert UsualNote(state, DefaultNote(state));
  }

  lemma PendingSays()
    ensures PENDING == " Outbound customer email is pending human approval."
  {
    assert " Outbound" + " customer" + " email" + " is" == " Outbound customer email is";
  }

  lemma PendingNoteMeans(note: string)
    ensures WrittenCarefully(note, PendingNote(note))
  {
    MentionsMeans(Prepared(note), "approval");
    PendingSays();
  }

  lemma TagsMean(fields: Payload, state: State)
    requires EntitiesOf(state).Some?
    ensures TagsAre(Field(fields, "tags"), exists order :: OrderIs(state, order), state.intent,
                    TagsOf(fields, EntitiesOf(state).value, state))
  {
    OrderMeans(state);
    if OrderOf(state).Some? {
      assert OrderIs(state, OrderOf(state).value);
    }
  }

  lemma KeysDiffer()
    ensures "note" != "tags" && "note" != "customer_email" && "tags" != "customer_email"
  {
    assert "note"[0] != "tags"[0] && "note"[0] != "customer_email"[0] && "tags"[0] != "customer_email"[0];
  }

  lemma LabelledMeans(fields: Payload, noted: Payload, state: State)
    requires EntitiesOf(state).Some? && OnlyNoted(fields, noted)
    ensures LabelsAre(fields, state, Labelled(noted, EntitiesOf(state).value, state))
  {
    NotedOthers(fields, noted);
    KeysDiffer();
    CustomerMeans(state);
    if CustomerEmail(state).Some? {
      assert Known(state, CustomerEmail(state).value);
    }
    TagsMean(noted, state);
    assert Field(noted, "tags") == Field(fields, "tags");
  }

  lemma NotedSays(fields: Payload, state: State, pending: bool) returns (noted: Payload)
    ensures noted == fields["note" := Str(if pending then PendingNote(NoteOf(fields, state)) else NoteOf(fields, state))]
    ensures NoteSays(fields, noted, state, pending) && OnlyNoted(fields, noted)
  {
    var text := if pending then PendingNote(NoteOf(fields, state)) else NoteOf(fields, state);
    NoteTexts(fields, state, pending);
    noted := fields["note" := Str(text)];
    NotedOnly(fields, text);
  }

  ghost predicate OnlyNoted(fields: Payload, noted: Payload) {
    forall key | key != "note" :: SameField(fields, noted, key)
  }

  lemma NotedOnly(fields: Payload, text: string)
    ensures OnlyNoted(fields, fields["note" := Str(text)])
  {
  }

  lemma LabelledOthers(fields: Payload, noted: Payload, entities: Payload, state: State)
    requires OnlyNoted(fields, noted) && "note" in noted
    ensures OthersKept(fields, Labelled(noted, entities, state))
    ensures "note" in Labelled(noted, entities, state) && Labelled(noted, entities, state)["note"] == noted["note"]
  {
    KeysDiffer();
    forall key | key !in ["note", "customer_email", "tags"]
      ensures SameField(fields, Labelled(noted, entities, state), key)
    {
      assert SameField(fields, noted, key);
    }
  }

  lemma NotedOthers(fields: Payload, noted: Payload)
    requires OnlyNoted(fields, noted)
    ensures OthersKept(fields, noted) && SameField(fields, noted, "customer_email") && SameField(fields, noted, "tags")
  {
    KeysDiffer();
  }

  lemma NotePayloadMeans(fields: Payload, state: State, pending: bool)
    ensures NotePayloadFrom(fields, NotePayload(fields, state, pending), state, pending)
  {
    var noted := NotedSays(fields, state, pending);
    NotedOthers(fields, noted);
    if EntitiesOf(state).Some? {
      LabelledMeans(fields, noted, state);
      LabelledOthers(fields, noted, EntitiesOf(state).value, state);
      StillSays(fields, noted, NotePayload(fields, state, pending), state, pending);
    }
  }

  lemma StillSays(fields: Payload, noted: Payload, after: Payload, state: State, pending: bool)
    requires NoteSays(fields, noted, state, pending) && "note" in after && after["note"] == noted["note"]
    ensures NoteSays(fields, after, state, pending)
  {
  }

  lemma NoteTexts(fields: Payload, state: State, pending: bool)
    ensures var text := if pending then PendingNote(NoteOf(fields, state)) else NoteOf(fields, state);
            exists note :: NoteIs(fields, state, note) && (if pending then WrittenCarefully(note, text) else text == note)
  {
    NoteOfMeans(fields, state);
    PendingNoteMeans(NoteOf(fields, state));
  }

  lemma NoteMeans(item: Item, state: State, pending: bool)
    requires item.Planned?
    ensures NoteFrom(item, NoteAction(item, state, pending), state, pending)
  {
    NotePayloadMeans(Fields(item), state, pending);
  }

  // ---- The list ----

  /** An object that names one of the three tools, and a message only if it can be written. */
  ghost predicate Survives(item: Item, state: State) {
    && item.Planned? && item.tool in [Str("send_email"), Str("create_crm_note"), Str("export_report")]
    && (item.tool == Str("send_email") ==> CanWrite(item, state))
  }

  /** A report keeps its payload; one that is falsy is an empty object. */
  predicate ReportFrom(item: Item, action: Item) {
    && item.Planned? && action.Planned? && action.tool == Str("export_report")
    && action.reason == item.reason && action.rest == item.rest
    && action.payload == if item.payload.Some? && Truthy(item.payload.value) then item.payload else Some(Obj(map[]))
  }

  ghost predicate ActionFrom(item: Item, action: Item, state: State, pending: bool) {
    || MessageFrom(item, action, state)
    || NoteFrom(item, action, state, pending)
    || ReportFrom(item, action)
  }

  /** What it becomes goes by its tool. */
  ghost predicate ToolKept(item: Item, action: Item) {
    item.Planned? && action.Planned? && action.tool == item.tool
  }

  lemma FieldsKept(item: Item)
    requires item.Planned?
    ensures Fields(WithPayload(item)) == Fields(item)
  {
  }

  lemma SurvivesMeans(item: Item, state: State)
    ensures Candidate(item, state).Some? <==> Survives(item, state)
  {
    if item.Planned? {
      ToolsDiffer();
      FieldsKept(item);
      MessageMeans(WithPayload(item), state);
    }
  }

  lemma ActionMeans(item: Item, state: State, pending: bool)
    requires Candidate(item, state).Some?
    ensures var action := Finished(Candidate(item, state).value, state, pending);
            ActionFrom(item, action, state, pending) && ToolKept(item, action)
  {
    ToolsDiffer();
    FieldsKept(item);
    if item.tool == SEND_EMAIL {
      MessageMeans(WithPayload(item), state);
    } else if item.tool == CRM_NOTE {
      NoteMeans(WithPayload(item), state, pending);
    }
  }

  /** The message that is added where none was proposed: nobody is named and nothing said in
      it, so it goes to the customer and carries the draft. */
  function AddedProposal(): Item {
    Planned(Str("send_email"), Some(Obj(map[])), Str("Send the drafted customer response after a human approves it."), map[])
  }

  ghost predicate HasMessage(items: seq<Item>, state: State) {
    exists i :: 0 <= i < |items| && Survives(items[i], state) && items[i].tool == Str("send_email")
  }

  ghost predicate Rising(at: seq<nat>, items: seq<Item>, state: State) {
    && (forall i, j | 0 <= i < j < |at| :: at[i] < at[j])
    && (forall i :: i in at <==> 0 <= i < |items| && Survives(items[i], state))
  }

  /** Each surviving proposal becomes its action, in order; behind them comes one message more
      exactly if none was proposed and one can be written. */
  ghost predicate PlanFrom(items: seq<Item>, at: seq<nat>, plan: seq<Item>, state: State) {
    var added := !HasMessage(items, state) && CanWrite(AddedProposal(), state);
    var pending := HasMessage(items, state) || added;
    && Rising(at, items, state) && |plan| == |at| + (if added then 1 else 0)
    && (forall j | 0 <= j < |at| :: at[j] < |items| && ToolKept(items[at[j]], plan[j]) && ActionFrom(items[at[j]], plan[j], state, pending))
    && (added ==> MessageFrom(AddedProposal(), plan[|at|], state))
  }

  lemma HasMessageMeans(items: seq<Item>, state: State)
    ensures HasEmail(Candidates(items, state)) <==> HasMessage(items, state)
  {
    var at, candidates := Survivors(items, state, |items|), Candidates(items, state);
    CandidatesAre(items, state, |items|);
    SurvivorsRise(items, state, |items|);
    assert items[..|items|] == items;
    if j :| 0 <= j < |candidates| && IsEmail(candidates[j]) {
      SurvivesMeans(items[at[j]], state);
      ToolOfCandidate(items[at[j]], state);
    }
    if i :| 0 <= i < |items| && Survives(items[i], state) && items[i].tool == Str("send_email") {
      SurvivesMeans(items[i], state);
      var j :| 0 <= j < |at| && at[j] == i;
      ToolOfCandidate(items[i], state);
      assert IsEmail(candidates[j]);
    }
  }

  lemma ToolOfCandidate(item: Item, state: State)
    requires Candidate(item, state).Some?
    ensures item.Planned? && Candidate(item, state).value.Planned? && Candidate(item, state).value.tool == item.tool
  {
  }

  /** What the whole normalization makes of a list of proposals, and of what is no list. */
  lemma PlanMeans(raw: Option<seq<Item>>, state: State) returns (at: seq<nat>)
    ensures raw.Some? ==> PlanFrom(raw.value, at, Normalized(raw, state), state)
    ensures raw.None? ==> PlanFrom([], at, Normalized(raw, state), state)
  {
    var items := if raw.Some? then raw.value else [];
    at := Survivors(items, state, |items|);
    var candidates, plan := Candidates(items, state), Normalized(raw, state);
    var all := WithEmail(candidates, state);
    CandidatesAre(items, state, |items|);
    assert items[..|items|] == items;
    SurvivorsRising(items, state);
    HasMessageMeans(items, state);
    MessageMeans(ADDED, state);
    AllHasEmail(candidates, state);
    forall j | 0 <= j < |at|
      ensures at[j] < |items| && ToolKept(items[at[j]], plan[j])
      ensures ActionFrom(items[at[j]], plan[j], state, HasEmail(all))
    {
      ActionMeans(items[at[j]], state, HasEmail(all));
      assert all[j] == candidates[j];
    }
    ToolsDiffer();
  }

  lemma AllHasEmail(candidates: seq<Item>, state: State)
    ensures HasEmail(WithEmail(candidates, state)) <==> HasEmail(candidates) || EmailAction(ADDED, state).Some?
  {
    if EmailAction(ADDED, state).Some? {
      HasEmailGrows(candidates, EmailAction(ADDED, state).value);
    }
  }

  lemma SurvivorsRising(items: seq<Item>, state: State)
    ensures Rising(Survivors(items, state, |items|), items, state)
  {
    SurvivorsRise(items, state, |items|);
    forall i | 0 <= i < |items|
      ensures Candidate(items[i], state).Some? <==> Survives(items[i], state)
    {
      SurvivesMeans(items[i], state);
    }
  }
}
