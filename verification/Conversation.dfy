/**
 The conversation log's data model (`domain/activity/rollout/event.rs`, `store/rollout/support.rs`):
 drafts handed to the writer, events stored in a thread file, and the values a stored line decodes to.
 JSON text is opaque; JSON printing, JSON parsing and redaction are parameters (`Wire`).
 */
module Conversation {
  import opened Basics
  import opened Text

  datatype Phase = Request | Response

  datatype Kind = Message | Reasoning | ToolCall | ToolResult | Usage | Error

  /** `ContentEventBody`: `json` stands for every payload field that is not spelled out. */
  datatype ContentBody =
    | MessageBody(phase: Phase, json: string)
    | ReasoningBody(phase: Phase, json: string)
    | ToolCallBody(phase: Phase, toolCallId: string, json: string)
    | ToolResultBody(phase: Phase, toolCallId: string, json: string)
    | UsageBody(json: string)
    | ErrorBody(json: string)

  datatype ContentDraft = ContentDraft(itemId: Option<string>, body: ContentBody)

  /** A stored payload. `toolCallId` is present when a tool payload decodes. */
  datatype Payload = Payload(phase: Option<Phase>, toolCallId: Option<string>, json: string)

  datatype WindowState = WindowState(windowId: Option<string>, generation: nat)

  datatype Status = Writing | Completed | Failed | Partial

  /** An event body as stored. Fields that may fail to decode in a file written by others are options. */
  datatype Body =
    | Window(window: Option<WindowState>)
    | Turn(turnId: Option<string>, details: string)
    | Content(kind: Kind, payload: Payload)
    | Context(refs: Option<seq<nat>>)
    | TurnEnd(status: Status, details: string)
    | Foreign(name: string)

  datatype Event = Event(seqNo: nat, body: Body)

  /** What one line of a file decodes to. `Garbage` is anything that is not a stored line. */
  datatype LineValue =
    | Garbage
    | Header(threadId: string)
    | UnsupportedHeader
    | MalformedHeader
    | Ignored
    | Record(event: Event)

  /**
   The text-level operations the log relies on but does not define: `serde_json` printing and parsing
   of one line, and the redaction of strings (`redactText`) and of whole payloads (`redactJson`).
   */
  datatype Wire = Wire(
    render: LineValue -> string,
    parse: string -> LineValue,
    redactText: string -> string,
    redactJson: string -> string)
  {
    /** Compact JSON escapes control characters, and a line the writer prints parses back to its value. */
    ghost predicate Lossless() {
      forall v: LineValue :: IsWritten(v) ==> PlainLine(render(v)) && parse(render(v)) == v
    }
  }

  /** The bodies the writer emits: every field present, and a tool id exactly on tool payloads. */
  predicate Emitted(body: Body) {
    match body
    case Window(window) => window.Some?
    case Turn(turnId, _) => turnId.Some?
    case Content(kind, payload) =>
      && (payload.toolCallId.Some? <==> IsToolKind(kind))
      && (payload.phase.Some? <==> IsContentKind(kind))
    case Context(refs) => refs.Some?
    case TurnEnd(_, _) => true
    case Foreign(_) => false
  }

  predicate IsWritten(v: LineValue) {
    v.Header? || (v.Record? && Emitted(v.event.body))
  }

  /** The text the writer appends for these values. */
  function Encode(wire: Wire, values: seq<LineValue>): string {
    if values == [] then "" else wire.render(values[0]) + "\n" + Encode(wire, values[1..])
  }

  /** The values of the lines of a text. */
  function Decode(wire: Wire, lines: seq<string>): (values: seq<LineValue>)
    ensures |values| == |lines|
    ensures forall k :: 0 <= k < |lines| ==> values[k] == wire.parse(lines[k])
  {
    seq(|lines|, k requires 0 <= k < |lines| => wire.parse(lines[k]))
  }

  /** The values of a file's complete lines: what a reader sees after tail repair. */
  function Values(wire: Wire, text: string): seq<LineValue> {
    Decode(wire, Lines(Repair(text)))
  }

  lemma {:induction false} EncodeAppend(wire: Wire, a: seq<LineValue>, b: seq<LineValue>)
    ensures Encode(wire, a + b) == Encode(wire, a) + Encode(wire, b)
    ensures Complete(Encode(wire, a))
  {
    if a == [] {
      assert a + b == b;
    } else {
      EncodeAppend(wire, a[1..], b);
      assert (a + b)[1..] == a[1..] + b && (a + b)[0] == a[0];
      var first, rest := wire.render(a[0]) + "\n", Encode(wire, a[1..]);
      assert Encode(wire, a) == first + rest && Encode(wire, a + b) == first + Encode(wire, a[1..] + b);
      assert first[|first| - 1] == '\n';
      if rest != "" {
        assert (first + rest)[|first + rest| - 1] == rest[|rest| - 1];
      } else {
        assert first + rest == first;
      }
    }
  }

  /** Reading back written values gives the same values, one per line. */
  lemma {:induction false} DecodeEncode(wire: Wire, values: seq<LineValue>)
    requires wire.Lossless()
    requires forall k :: 0 <= k < |values| ==> IsWritten(values[k])
    ensures Decode(wire, Lines(Encode(wire, values))) == values
  {
    if values == [] {
    } else {
      var line := wire.render(values[0]);
      assert IsWritten(values[0]);
      LinesOfOne(line);
      LinesAppend(line + "\n", Encode(wire, values[1..]));
      DecodeEncode(wire, values[1..]);
    }
  }

  lemma {:induction false} DecodeAppend(wire: Wire, a: seq<string>, b: seq<string>)
    ensures Decode(wire, a + b) == Decode(wire, a) + Decode(wire, b)
  {
  }

  /** Written values appended to a complete file are read back behind what was there. */
  lemma {:induction false} ValuesAppend(wire: Wire, text: string, values: seq<LineValue>)
    requires wire.Lossless() && Complete(text)
    requires forall k :: 0 <= k < |values| ==> IsWritten(values[k])
    ensures Complete(text + Encode(wire, values))
    ensures Values(wire, text + Encode(wire, values)) == Values(wire, text) + values
  {
    var more := Encode(wire, values);
    EncodeAppend(wire, values, []);
    CompleteAppend(text, more);
    RepairIdempotent(text);
    RepairIdempotent(text + more);
    LinesAppend(text, more);
    DecodeAppend(wire, Lines(text), Lines(more));
    DecodeEncode(wire, values);
  }

  /** Tail repair changes nothing that is read. */
  lemma ValuesOfRepaired(wire: Wire, text: string)
    ensures Values(wire, Repair(text)) == Values(wire, text)
  {
    RepairIdempotent(text);
  }

  /** However a text is cut, its readable values are a prefix of the uncut text's. */
  lemma {:induction false} ValuesOfPrefix(wire: Wire, text: string, cut: string)
    requires cut <= text
    ensures Values(wire, cut) <= Values(wire, text)
  {
    LinesOfPrefix(text, cut);
  }

  // ----- Identities and reference keys (support.rs) -----

  /** The identity of a content payload: its SHA-256 is modelled by what is hashed, phase removed. */
  datatype Identity = Identity(kind: Kind, toolCallId: Option<string>, json: string)

  datatype ItemKey = ItemKey(kind: Kind, id: string)

  predicate IsContentKind(kind: Kind) {
    kind.Message? || kind.Reasoning? || kind.ToolCall? || kind.ToolResult?
  }

  predicate IsToolKind(kind: Kind) {
    kind.ToolCall? || kind.ToolResult?
  }

  function IdentityOf(kind: Kind, payload: Payload): Identity {
    Identity(kind, payload.toolCallId, payload.json)
  }

  function KindOf(body: ContentBody): Kind {
    match body
    case MessageBody(_, _) => Message
    case ReasoningBody(_, _) => Reasoning
    case ToolCallBody(_, _, _) => ToolCall
    case ToolResultBody(_, _, _) => ToolResult
    case UsageBody(_) => Usage
    case ErrorBody(_) => Error
  }

  /** `draft_event_parts`: the payload is redacted before it is stored or compared. */
  function PayloadOf(wire: Wire, body: ContentBody): Payload {
    match body
    case MessageBody(phase, json) => Payload(Some(phase), None, wire.redactJson(json))
    case ReasoningBody(phase, json) => Payload(Some(phase), None, wire.redactJson(json))
    case ToolCallBody(phase, id, json) => Payload(Some(phase), Some(wire.redactText(id)), wire.redactJson(json))
    case ToolResultBody(phase, id, json) => Payload(Some(phase), Some(wire.redactText(id)), wire.redactJson(json))
    case UsageBody(json) => Payload(None, None, wire.redactJson(json))
    case ErrorBody(json) => Payload(None, None, wire.redactJson(json))
  }

  function DraftIdentity(wire: Wire, draft: ContentDraft): Identity {
    IdentityOf(KindOf(draft.body), PayloadOf(wire, draft.body))
  }

  /** `item_id(&draft.body)`: taken from the draft itself, before redaction. */
  function ToolId(body: ContentBody): Option<string> {
    if body.ToolCallBody? || body.ToolResultBody? then Some(body.toolCallId) else None
  }

  /** The stable key of a draft: the tool call id if there is one, otherwise the item id. */
  function StableKey(draft: ContentDraft): Option<ItemKey> {
    var id := if ToolId(draft.body).Some? then ToolId(draft.body) else draft.itemId;
    if id.Some? then Some(ItemKey(KindOf(draft.body), id.value)) else None
  }

  // ----- Drafts and stored events, field by field -----

  /** Two drafts hold the same content: type, redacted tool call id and redacted JSON, whatever their phases. */
  predicate SameContent(wire: Wire, a: ContentBody, b: ContentBody) {
    && (a.MessageBody? <==> b.MessageBody?) && (a.ReasoningBody? <==> b.ReasoningBody?)
    && (a.ToolCallBody? <==> b.ToolCallBody?) && (a.ToolResultBody? <==> b.ToolResultBody?)
    && (a.UsageBody? <==> b.UsageBody?) && (a.ErrorBody? <==> b.ErrorBody?)
    && (a.ToolCallBody? && b.ToolCallBody? ==> wire.redactText(a.toolCallId) == wire.redactText(b.toolCallId))
    && (a.ToolResultBody? && b.ToolResultBody? ==> wire.redactText(a.toolCallId) == wire.redactText(b.toolCallId))
    && wire.redactJson(a.json) == wire.redactJson(b.json)
  }

  /** Drafts are taken for one another exactly when they hold the same content. */
  lemma SameIdentityIff(wire: Wire, a: ContentDraft, b: ContentDraft)
    ensures DraftIdentity(wire, a) == DraftIdentity(wire, b) <==> SameContent(wire, a.body, b.body)
  {
  }

  /** The event stores the content of this draft. */
  predicate Stores(wire: Wire, e: Event, body: ContentBody) {
    && e.body.Content?
    && e.body.payload.json == wire.redactJson(body.json)
    && match body
       case MessageBody(_, _) => e.body.kind == Message && e.body.payload.toolCallId == None
       case ReasoningBody(_, _) => e.body.kind == Reasoning && e.body.payload.toolCallId == None
       case ToolCallBody(_, id, _) => e.body.kind == ToolCall && e.body.payload.toolCallId == Some(wire.redactText(id))
       case ToolResultBody(_, id, _) =>
         e.body.kind == ToolResult && e.body.payload.toolCallId == Some(wire.redactText(id))
       case UsageBody(_) => e.body.kind == Usage && e.body.payload.toolCallId == None
       case ErrorBody(_) => e.body.kind == Error && e.body.payload.toolCallId == None
  }

  /** The event stores the phase of this draft; usage and errors have none. */
  predicate StoresPhase(e: Event, body: ContentBody) {
    && e.body.Content?
    && match body
       case MessageBody(phase, _) => e.body.payload.phase == Some(phase)
       case ReasoningBody(phase, _) => e.body.payload.phase == Some(phase)
       case ToolCallBody(phase, _, _) => e.body.payload.phase == Some(phase)
       case ToolResultBody(phase, _, _) => e.body.payload.phase == Some(phase)
       case UsageBody(_) => e.body.payload.phase == None
       case ErrorBody(_) => e.body.payload.phase == None
  }

  /** An event has a draft's identity exactly when it stores the draft's content. */
  lemma StoresIff(wire: Wire, e: Event, draft: ContentDraft)
    ensures Stores(wire, e, draft.body) <==>
      e.body.Content? && IdentityOf(e.body.kind, e.body.payload) == DraftIdentity(wire, draft)
  {
  }

  /** The event written for a draft stores its content and its phase. */
  lemma WrittenStores(wire: Wire, seqNo: nat, body: ContentBody)
    ensures var e := Event(seqNo, Content(KindOf(body), PayloadOf(wire, body)));
      Stores(wire, e, body) && StoresPhase(e, body)
  {
  }

  /** The key a reader recovers for a stored event: only tool events carry one. */
  function StoredKey(kind: Kind, payload: Payload): Option<ItemKey> {
    if IsToolKind(kind) && payload.toolCallId.Some? then Some(ItemKey(kind, payload.toolCallId.value)) else None
  }

  /** Redaction leaves the tool call id of this draft alone. */
  predicate KeepsToolId(wire: Wire, body: ContentBody) {
    ToolId(body).Some? ==> wire.redactText(ToolId(body).value) == ToolId(body).value
  }

  function RedactOption(wire: Wire, text: Option<string>): Option<string> {
    if text.Some? then Some(wire.redactText(text.value)) else None
  }

  /** `event_type`, the text in front of the colon of an item reference. */
  function KindName(kind: Kind): string {
    match kind
    case Message => "message"
    case Reasoning => "reasoning"
    case ToolCall => "tool_call"
    case ToolResult => "tool_result"
    case Usage => "usage"
    case Error => "error"
  }

  /** `item_ref_key` */
  function ItemRefKey(key: ItemKey): string {
    KindName(key.kind) + ":" + key.id
  }

  lemma ItemRefKeyForms(id: string)
    ensures ItemRefKey(ItemKey(Message, id)) == "message:" + id
    ensures ItemRefKey(ItemKey(Reasoning, id)) == "reasoning:" + id
    ensures ItemRefKey(ItemKey(ToolCall, id)) == "tool_call:" + id
    ensures ItemRefKey(ItemKey(ToolResult, id)) == "tool_result:" + id
  {
  }

  /** The textual key determines the kind and the id, so keeping keys as pairs loses nothing. */
  lemma ItemRefKeyInjective(a: ItemKey, b: ItemKey)
    requires ItemRefKey(a) == ItemRefKey(b)
    ensures a == b
  {
    var n, m := |KindName(a.kind)|, |KindName(b.kind)|;
    KindNamesHaveNoColon(a.kind);
    KindNamesHaveNoColon(b.kind);
    hide KindName;
    var text := ItemRefKey(a);
    assert text[..n] == KindName(a.kind) && text[n] == ':' && text[n + 1..] == a.id;
    assert text[..m] == KindName(b.kind) && text[m] == ':' && text[m + 1..] == b.id;
    assert forall k :: 0 <= k < n ==> text[k] == text[..n][k] && text[..n][k] in KindName(a.kind);
    assert forall k :: 0 <= k < m ==> text[k] == text[..m][k] && text[..m][k] in KindName(b.kind);
    assert n == m;
    KindNamesDiffer(a.kind, b.kind);
  }

  lemma KindNamesHaveNoColon(kind: Kind)
    ensures ':' !in KindName(kind)
  {
  }

  lemma KindNamesDiffer(a: Kind, b: Kind)
    requires KindName(a) == KindName(b)
    ensures a == b
  {
    assert KindName(a)[0] == KindName(b)[0];
    assert |KindName(ToolCall)| == 9 && |KindName(ToolResult)| == 11;
  }
}
