/**
 Responses items: the printer of the upstream request (`codec/providers/responses/request.rs`), the strict
 parser of the chat bridge (`codec/bridge/responses/items.rs`), the lenient parser of incoming requests
 (`codec/bridge/responses/input.rs`) and the bridge's validation (`codec/bridge/responses/decode.rs`).
 */
module ResponsesItems {
  import opened Basics
  import Streams

  datatype Value =
    | Null | Bool(b: bool) | Num(n: int) | Str(s: string) | Arr(items: seq<Value>) | Obj(fields: map<string, Value>)

  /** `Value::get` with a key: absent on anything that is not an object. */
  function Get(v: Value, key: string): Option<Value> {
    if v.Obj? && key in v.fields then Some(v.fields[key]) else None
  }

  function AsStr(v: Option<Value>): Option<string> {
    if v.Some? && v.value.Str? then Some(v.value.s) else None
  }

  function AsArr(v: Option<Value>): Option<seq<Value>> {
    if v.Some? && v.value.Arr? then Some(v.value.items) else None
  }

  function OrElse(a: Option<Value>, b: Option<Value>): Option<Value> {
    if a.Some? then a else b
  }

  predicate Blank(s: string) {
    forall c <- s :: Streams.IsWhitespace(c)
  }

  /** Blank text is what trimming leaves nothing of. */
  lemma BlankIff(s: string)
    ensures Blank(s) <==> Streams.TrimStart(s) == ""
  {
    var n := Streams.TrimStartMeaning(s);
    hide Streams.IsWhitespace;
    assert n < |s| ==> s[n] in s;
  }

  /** `string_field`: blank strings count as absent. */
  function StringField(v: Option<Value>): Option<string> {
    var s := AsStr(v);
    if s.Some? && !Blank(s.value) then s else None
  }

  // ----- Messages -----

  datatype Role = User | Assistant | System | Tool

  datatype Part = Text(text: string) | Image(imageUrl: Option<Value>, fileId: Option<string>, detail: Option<string>)

  datatype ToolCall = ToolCall(id: string, name: string, arguments: string)

  datatype Message = Message(
    role: Role, content: seq<Part>, toolCallId: Option<string>, toolCalls: seq<ToolCall>, reasoning: Option<string>)

  datatype Fault = Invalid | Unsupported

  // ----- The printer -----

  predicate AllText(content: seq<Part>) {
    forall p <- content :: p.Text?
  }

  /** `join_text_content` */
  function JoinText(content: seq<Part>): string {
    if content == [] then ""
    else
      var rest := JoinText(content[1..]);
      match content[0]
      case Image(_, _, _) => rest
      case Text(t) => if exists p <- content[1..] :: p.Text? then t + "\n" + rest else t
  }

  /** The texts of a content list; images have none. */
  function Texts(content: seq<Part>): seq<string> {
    if content == [] then []
    else (if content[0].Text? then [content[0].text] else []) + Texts(content[1..])
  }

  lemma {:induction false} TextsAreThere(content: seq<Part>)
    ensures Texts(content) != [] <==> exists p <- content :: p.Text?
    ensures AllText(content) ==> |Texts(content)| == |content|
  {
    if content == [] {
    } else {
      TextsAreThere(content[1..]);
      assert content == [content[0]] + content[1..];
    }
  }

  /** Text content is joined in order, with line feeds between its texts. */
  lemma {:induction false} JoinTextIsJoin(content: seq<Part>)
    ensures JoinText(content) == Streams.Join(Texts(content))
  {
    if content == [] {
    } else {
      hide Streams.Join;
      var rest := Texts(content[1..]);
      JoinTextIsJoin(content[1..]);
      TextsAreThere(content[1..]);
      if content[0].Text? {
        Streams.JoinOne(content[0].text);
        if rest != [] { Streams.JoinAppend([content[0].text], rest); }
        assert rest == [] ==> [content[0].text] + rest == [content[0].text];
      } else {
        assert [] + rest == rest;
      }
    }
  }

  lemma {:induction false} TextsAppend(a: seq<Part>, b: seq<Part>)
    ensures Texts(a + b) == Texts(a) + Texts(b)
  {
    if a == [] {
      assert a + b == b;
    } else {
      assert (a + b)[1..] == a[1..] + b;
      TextsAppend(a[1..], b);
    }
  }

  /** The place of one text in the joined string: behind the texts before it, in front of those after it. */
  lemma TextInPlace(a: seq<Part>, t: string, b: seq<Part>)
    ensures JoinText(a + [Text(t)] + b) ==
      (if Texts(a) == [] then "" else JoinText(a) + "\n") + t + (if Texts(b) == [] then "" else "\n" + JoinText(b))
  {
    hide JoinText, Streams.Join;
    JoinTextIsJoin(a + [Text(t)] + b);
    JoinTextIsJoin(a);
    JoinTextIsJoin(b);
    TextsAppend(a + [Text(t)], b);
    TextsAppend(a, [Text(t)]);
    assert [Text(t)][1..] == [] && Texts([Text(t)]) == [t];
    Streams.JoinOne(t);
    if Texts(a) != [] { Streams.JoinAppend(Texts(a), [t]); } else { assert [] + [t] == [t]; }
    if Texts(b) != [] { Streams.JoinAppend(Texts(a) + [t], Texts(b)); }
    assert Texts(b) == [] ==> Texts(a) + [t] + Texts(b) == Texts(a) + [t];
  }

  function OptionalStr(fields: map<string, Value>, key: string, s: Option<string>): map<string, Value> {
    if s.Some? then fields[key := Str(s.value)] else fields
  }

  /** `encode_image_part` */
  function EncodeImage(p: Part): Value
    requires p.Image?
  {
    var f0 := map["type" := Str("input_image")];
    var f1 := if p.imageUrl.Some? then f0["image_url" := p.imageUrl.value] else f0;
    Obj(OptionalStr(OptionalStr(f1, "file_id", p.fileId), "detail", p.detail))
  }

  function EncodePart(textType: string, p: Part): Value {
    match p
    case Text(t) => Obj(map["type" := Str(textType), "text" := Str(t)])
    case Image(_, _, _) => EncodeImage(p)
  }

  function EncodeParts(textType: string, content: seq<Part>): seq<Value> {
    seq(|content|, i requires 0 <= i < |content| => EncodePart(textType, content[i]))
  }

  /** `encode_message_content` and `encode_output_content`: text alone is joined to one string. */
  function EncodeContent(textType: string, content: seq<Part>): Value {
    if AllText(content) then Str(JoinText(content))
    else Arr(EncodeParts(textType, content))
  }

  function EncodeRole(role: Role): string {
    match role
    case User => "user"
    case Assistant => "assistant"
    case System => "system"
    case Tool => "tool"
  }

  function EncodeMessage(m: Message): Value {
    Obj(map["role" := Str(EncodeRole(m.role)),
            "content" := EncodeContent(if m.role == Assistant then "output_text" else "input_text", m.content)])
  }

  function EncodeToolCall(call: ToolCall): Value {
    Obj(map["type" := Str("function_call"), "call_id" := Str(call.id), "name" := Str(call.name),
            "arguments" := Str(call.arguments)])
  }

  function EncodeToolCalls(calls: seq<ToolCall>): seq<Value> {
    if calls == [] then [] else [EncodeToolCall(calls[0])] + EncodeToolCalls(calls[1..])
  }

  function EncodeOutput(m: Message): Value {
    Obj(map["type" := Str("function_call_output"),
            "call_id" := (if m.toolCallId.Some? then Str(m.toolCallId.value) else Null),
            "output" := EncodeContent("input_text", m.content)])
  }

  function Encode(m: Message): seq<Value> {
    if m.role == Tool then [EncodeOutput(m)]
    else (if m.content != [] || m.toolCalls == [] then [EncodeMessage(m)] else []) + EncodeToolCalls(m.toolCalls)
  }

  /** `encode_message_items`: the loop that pushes the call items. */
  method EncodeMessageItems(m: Message) returns (items: seq<Value>)
    ensures items == Encode(m)
  {
    if m.role == Tool { return [EncodeOutput(m)]; }
    items := [];
    if m.content != [] || m.toolCalls == [] { items := items + [EncodeMessage(m)]; }
    ghost var front := items;
    assert m.toolCalls[0..] == m.toolCalls;
    for i := 0 to |m.toolCalls|
      invariant items + EncodeToolCalls(m.toolCalls[i..]) == front + EncodeToolCalls(m.toolCalls)
    {
      assert m.toolCalls[i..][1..] == m.toolCalls[i + 1..];
      assert items + ([EncodeToolCall(m.toolCalls[i])] + EncodeToolCalls(m.toolCalls[i + 1..]))
        == (items + [EncodeToolCall(m.toolCalls[i])]) + EncodeToolCalls(m.toolCalls[i + 1..]);
      items := items + [EncodeToolCall(m.toolCalls[i])];
    }
    assert m.toolCalls[|m.toolCalls|..] == [] && items + [] == items;
  }

  // ----- The printed items, field by field -----

  /** What stands for a part in a printed list. */
  predicate PrintsPart(v: Value, textType: string, p: Part) {
    match p
    case Text(t) => Get(v, "type") == Some(Str(textType)) && Get(v, "text") == Some(Str(t))
    case Image(url, file, detail) =>
      && Get(v, "type") == Some(Str("input_image")) && Get(v, "image_url") == url
      && Get(v, "file_id") == (if file.Some? then Some(Str(file.value)) else None)
      && Get(v, "detail") == (if detail.Some? then Some(Str(detail.value)) else None)
  }

  /** Text alone is one string, its texts joined; otherwise every part is printed, in order. */
  predicate PrintsContent(v: Option<Value>, textType: string, content: seq<Part>) {
    if AllText(content) then v == Some(Str(Streams.Join(Texts(content))))
    else
      && AsArr(v).Some? && |AsArr(v).value| == |content|
      && forall i :: 0 <= i < |content| ==> PrintsPart(AsArr(v).value[i], textType, content[i])
  }

  predicate PrintsCall(v: Value, call: ToolCall) {
    && Get(v, "type") == Some(Str("function_call")) && Get(v, "call_id") == Some(Str(call.id))
    && Get(v, "name") == Some(Str(call.name)) && Get(v, "arguments") == Some(Str(call.arguments))
  }

  lemma PartPrinted(textType: string, p: Part)
    ensures PrintsPart(EncodePart(textType, p), textType, p)
  {
    assert "type" != "image_url" && "type" != "file_id" && "type" != "detail";
    assert "image_url" != "file_id" && "image_url" != "detail" && "file_id" != "detail" && "type" != "text";
  }

  lemma ContentPrinted(textType: string, content: seq<Part>)
    ensures PrintsContent(Some(EncodeContent(textType, content)), textType, content)
  {
    hide PrintsPart, EncodePart, JoinText, Streams.Join;
    JoinTextIsJoin(content);
    forall i | 0 <= i < |content| ensures PrintsPart(EncodePart(textType, content[i]), textType, content[i]) {
      PartPrinted(textType, content[i]);
    }
  }

  lemma {:induction false} CallsPrinted(calls: seq<ToolCall>)
    ensures |EncodeToolCalls(calls)| == |calls|
    ensures forall k :: 0 <= k < |calls| ==> PrintsCall(EncodeToolCalls(calls)[k], calls[k])
  {
    if calls == [] {
    } else {
      CallsPrinted(calls[1..]);
      FieldNames();
    }
  }

  /**
   What a message is printed as: a tool message as one output item; any other as a message item, unless it only
   makes calls, and then one call item for each call, in order.
   */
  lemma PrintedMessage(m: Message)
    ensures var items := Encode(m);
      var front := if m.role == Tool || m.content != [] || m.toolCalls == [] then 1 else 0;
      && |items| == front + (if m.role == Tool then 0 else |m.toolCalls|)
      && (m.role == Tool ==>
           && Get(items[0], "type") == Some(Str("function_call_output"))
           && Get(items[0], "call_id") == Some(if m.toolCallId.Some? then Str(m.toolCallId.value) else Null)
           && PrintsContent(Get(items[0], "output"), "input_text", m.content))
      && (m.role != Tool && front == 1 ==>
           && Get(items[0], "type") == None
           && Get(items[0], "role") ==
                Some(Str(if m.role == User then "user" else if m.role == Assistant then "assistant" else "system"))
           && PrintsContent(Get(items[0], "content"),
                if m.role == Assistant then "output_text" else "input_text", m.content))
      && (m.role != Tool ==>
           forall k :: 0 <= k < |m.toolCalls| ==> PrintsCall(items[front + k], m.toolCalls[k]))
  {
    hide EncodeContent, PrintsContent, EncodeToolCalls, PrintsCall;
    FieldNames();
    ContentPrinted("input_text", m.content);
    ContentPrinted("output_text", m.content);
    CallsPrinted(m.toolCalls);
  }

  function EncodeAll(ms: seq<Message>): seq<Value> {
    if ms == [] then [] else Encode(ms[0]) + EncodeAll(ms[1..])
  }

  // ----- The strict parser -----

  function StrictPart(v: Value): Result<Part, Fault> {
    var kind := AsStr(Get(v, "type"));
    if kind.None? then Err(Invalid)
    else if kind.value == "input_text" || kind.value == "output_text" || kind.value == "text" then
      var text := AsStr(Get(v, "text"));
      if text.Some? then Ok(Text(text.value)) else Err(Invalid)
    else if kind.value == "refusal" then
      var text := AsStr(Get(v, "refusal"));
      if text.Some? then Ok(Text(text.value)) else Err(Invalid)
    else if kind.value == "input_image" then
      var url, file := Get(v, "image_url"), StringField(Get(v, "file_id"));
      if url.None? && file.None? then Err(Invalid) else Ok(Image(url, file, StringField(Get(v, "detail"))))
    else Err(Invalid)
  }

  function StrictParts(vs: seq<Value>): Result<seq<Part>, Fault> {
    if vs == [] then Ok([])
    else
      match StrictPart(vs[0])
      case Err(e) => Err(e)
      case Ok(p) =>
        match StrictParts(vs[1..])
        case Err(e) => Err(e)
        case Ok(ps) => Ok([p] + ps)
  }

  function StrictContent(v: Value): Result<seq<Part>, Fault> {
    match v
    case Str(s) => Ok([Text(s)])
    case Arr(parts) => StrictParts(parts)
    case _ => Err(Invalid)
  }

  function StrictRole(role: string): Option<Role> {
    if role == "user" then Some(User)
    else if role == "assistant" then Some(Assistant)
    else if role == "system" || role == "developer" then Some(System)
    else None
  }

  function StrictMessage(v: Value): Result<Message, Fault> {
    var role := AsStr(Get(v, "role"));
    if role.None? || StrictRole(role.value).None? || Get(v, "content").None? then Err(Invalid)
    else
      match StrictContent(Get(v, "content").value)
      case Err(e) => Err(e)
      case Ok(content) => Ok(Message(StrictRole(role.value).value, content, None, [], None))
  }

  function StrictCall(v: Value): Result<Message, Fault> {
    var id, name := StringField(OrElse(Get(v, "call_id"), Get(v, "id"))), StringField(Get(v, "name"));
    var arguments := AsStr(Get(v, "arguments"));
    if id.None? || name.None? || arguments.None? then Err(Invalid)
    else Ok(Message(Assistant, [], None, [ToolCall(id.value, name.value, arguments.value)], None))
  }

  function StrictOutput(v: Value): Result<Message, Fault> {
    var id := StringField(Get(v, "call_id"));
    if id.None? || Get(v, "output").None? then Err(Invalid)
    else
      match StrictContent(Get(v, "output").value)
      case Err(e) => Err(e)
      case Ok(content) => Ok(Message(Tool, content, id, [], None))
  }

  function StrictItem(v: Value): Result<Message, Fault> {
    match AsStr(Get(v, "type"))
    case None => StrictMessage(v)
    case Some(kind) =>
      if kind == "function_call" then StrictCall(v)
      else if kind == "function_call_output" then StrictOutput(v)
      else if kind == "message" then StrictMessage(v)
      else Err(Unsupported)
  }

  /** `decode_items_for_chat_bridge` */
  function StrictItems(vs: seq<Value>): Result<seq<Message>, Fault> {
    if vs == [] then Ok([])
    else
      match StrictItem(vs[0])
      case Err(e) => Err(e)
      case Ok(m) =>
        match StrictItems(vs[1..])
        case Err(e) => Err(e)
        case Ok(ms) => Ok([m] + ms)
  }

  lemma {:induction false} StrictAppend(a: seq<Value>, b: seq<Value>)
    ensures StrictItems(a + b) ==
      match StrictItems(a)
      case Err(e) => Err(e)
      case Ok(ms) =>
        match StrictItems(b)
        case Err(e) => Err(e)
        case Ok(more) => Ok(ms + more)
  {
    hide StrictItem;
    if a == [] {
      assert a + b == b;
      if StrictItems(b).Ok? { assert [] + StrictItems(b).value == StrictItems(b).value; }
    } else {
      assert (a + b)[1..] == a[1..] + b && (a + b)[0] == a[0];
      StrictAppend(a[1..], b);
      if StrictItem(a[0]).Ok? && StrictItems(a[1..]).Ok? && StrictItems(b).Ok? {
        var m, ms, more := StrictItem(a[0]).value, StrictItems(a[1..]).value, StrictItems(b).value;
        assert [m] + (ms + more) == ([m] + ms) + more;
      }
    }
  }

  // ----- What the strict parser reads -----

  /** A part that is read as this one. */
  predicate ReadsAs(v: Value, p: Part) {
    match p
    case Text(t) =>
      || (Get(v, "type") in {Some(Str("input_text")), Some(Str("output_text")), Some(Str("text"))}
          && Get(v, "text") == Some(Str(t)))
      || (Get(v, "type") == Some(Str("refusal")) && Get(v, "refusal") == Some(Str(t)))
    case Image(url, file, detail) =>
      && Get(v, "type") == Some(Str("input_image")) && Get(v, "image_url") == url && (url.Some? || file.Some?)
      && (if file.Some? then Get(v, "file_id") == Some(Str(file.value)) && !Blank(file.value)
          else AsStr(Get(v, "file_id")).Some? ==> Blank(AsStr(Get(v, "file_id")).value))
      && (if detail.Some? then Get(v, "detail") == Some(Str(detail.value)) && !Blank(detail.value)
          else AsStr(Get(v, "detail")).Some? ==> Blank(AsStr(Get(v, "detail")).value))
  }

  lemma StrictPartMeaning(v: Value, p: Part)
    ensures StrictPart(v) == Ok(p) <==> ReadsAs(v, p)
  {
    hide Blank;
  }

  /** A list of parts is read part by part, in order, or not at all. */
  lemma {:induction false} StrictPartsMeaning(vs: seq<Value>, ps: seq<Part>)
    ensures StrictParts(vs) == Ok(ps) <==> |ps| == |vs| && forall i :: 0 <= i < |vs| ==> ReadsAs(vs[i], ps[i])
  {
    if vs == [] {
    } else {
      hide StrictPart, ReadsAs;
      if ps != [] {
        StrictPartMeaning(vs[0], ps[0]);
        StrictPartsMeaning(vs[1..], ps[1..]);
        assert ps == [ps[0]] + ps[1..];
      }
      if StrictPart(vs[0]).Ok? && StrictParts(vs[1..]).Ok? {
        assert ([StrictPart(vs[0]).value] + StrictParts(vs[1..]).value)[1..] == StrictParts(vs[1..]).value;
      }
    }
  }

  /** When an item is read as a message: its role is known and its content readable; `developer` is `system`. */
  lemma StrictMessageMeaning(v: Value, role: Role, content: seq<Part>)
    requires Get(v, "type") == Some(Str("message")) || AsStr(Get(v, "type")) == None
    ensures StrictItem(v) == Ok(Message(role, content, None, [], None)) <==>
      && Get(v, "content").Some? && StrictContent(Get(v, "content").value) == Ok(content)
      && match role
         case User => Get(v, "role") == Some(Str("user"))
         case Assistant => Get(v, "role") == Some(Str("assistant"))
         case System => Get(v, "role") == Some(Str("system")) || Get(v, "role") == Some(Str("developer"))
         case Tool => false
  {
    hide StrictContent;
  }

  /** When an item is read as a call: `call_id`, or `id` in its absence, and the name are not blank. */
  lemma StrictCallMeaning(v: Value, call: ToolCall)
    requires Get(v, "type") == Some(Str("function_call"))
    ensures StrictItem(v) == Ok(Message(Assistant, [], None, [call], None)) <==>
      && (if Get(v, "call_id").Some? then Get(v, "call_id") else Get(v, "id")) == Some(Str(call.id))
      && Get(v, "name") == Some(Str(call.name)) && Get(v, "arguments") == Some(Str(call.arguments))
      && !Blank(call.id) && !Blank(call.name)
  {
    hide Blank;
    assert [call][0] == call;
    if StrictItem(v).Ok? {
      var calls := StrictItem(v).value.toolCalls;
      assert calls == [call] <==> calls[0] == call;
    }
  }

  lemma StrictOutputMeaning(v: Value, id: string, content: seq<Part>)
    requires Get(v, "type") == Some(Str("function_call_output"))
    ensures StrictItem(v) == Ok(Message(Tool, content, Some(id), [], None)) <==>
      && Get(v, "call_id") == Some(Str(id)) && !Blank(id)
      && Get(v, "output").Some? && StrictContent(Get(v, "output").value) == Ok(content)
  {
    hide Blank, StrictContent;
  }

  /** Items of any other type are refused. */
  lemma StrictRefuses(v: Value, kind: string)
    requires Get(v, "type") == Some(Str(kind))
    ensures StrictItem(v) == Err(Unsupported) <==>
      kind !in {"message", "function_call", "function_call_output"}
  {
    hide StrictMessage, StrictCall, StrictOutput;
    OnlyInvalid(v);
  }

  lemma OnlyInvalid(v: Value)
    ensures StrictMessage(v) != Err(Unsupported) && StrictCall(v) != Err(Unsupported)
    ensures StrictOutput(v) != Err(Unsupported)
  {
    hide Blank, StringField;
    forall c: Value ensures StrictContent(c) != Err(Unsupported) {
      if c.Arr? { PartsOnlyInvalid(c.items); }
    }
  }

  lemma {:induction false} PartsOnlyInvalid(vs: seq<Value>)
    ensures StrictParts(vs) != Err(Unsupported)
  {
    if vs == [] {
    } else {
      PartsOnlyInvalid(vs[1..]);
    }
  }

  // ----- Printing then parsing -----

  function DropBlank(s: Option<string>): Option<string> {
    if s.Some? && Blank(s.value) then None else s
  }

  /** What an image keeps: blank file ids and details are dropped. */
  function NormalPart(p: Part): Part {
    match p
    case Text(_) => p
    case Image(url, file, detail) => Image(url, DropBlank(file), DropBlank(detail))
  }

  function NormalParts(content: seq<Part>): seq<Part> {
    seq(|content|, i requires 0 <= i < |content| => NormalPart(content[i]))
  }

  function NormalContent(content: seq<Part>): seq<Part> {
    if AllText(content) then [Text(Streams.Join(Texts(content)))]
    else NormalParts(content)
  }

  function NormalCalls(calls: seq<ToolCall>): seq<Message> {
    if calls == [] then [] else [Message(Assistant, [], None, [calls[0]], None)] + NormalCalls(calls[1..])
  }

  /** Text joined, each tool call in an assistant message of its own, reasoning dropped. */
  function Normal(m: Message): seq<Message> {
    if m.role == Tool then [Message(Tool, NormalContent(m.content), m.toolCallId, [], None)]
    else
      (if m.content != [] || m.toolCalls == [] then [Message(m.role, NormalContent(m.content), None, [], None)] else [])
      + NormalCalls(m.toolCalls)
  }

  function NormalAll(ms: seq<Message>): seq<Message> {
    if ms == [] then [] else Normal(ms[0]) + NormalAll(ms[1..])
  }

  predicate UsableImage(p: Part) {
    p.Image? ==> p.imageUrl.Some? || (p.fileId.Some? && !Blank(p.fileId.value))
  }

  /** What the strict parser asks for: nonblank ids and names, and images that refer to something. */
  predicate Bridgeable(m: Message) {
    && AllUsable(m.content)
    && (m.role == Tool ==> m.toolCallId.Some? && !Blank(m.toolCallId.value))
    && (m.role != Tool ==> forall call <- m.toolCalls :: !Blank(call.id) && !Blank(call.name))
  }

  lemma PartBack(textType: string, p: Part)
    requires textType == "input_text" || textType == "output_text"
    ensures StrictPart(EncodePart(textType, p)) == if UsableImage(p) then Ok(NormalPart(p)) else Err(Invalid)
  {
    match p
    case Text(t) =>
    case Image(url, file, detail) =>
      var v := EncodeImage(p);
      assert "type" != "image_url" && "type" != "file_id" && "type" != "detail";
      assert "image_url" != "file_id" && "image_url" != "detail" && "file_id" != "detail";
      assert Get(v, "type") == Some(Str("input_image"));
      assert Get(v, "image_url") == url;
      assert StringField(Get(v, "file_id")) == DropBlank(file);
      assert StringField(Get(v, "detail")) == DropBlank(detail);
      assert Get(v, "text").None?;
  }

  lemma {:induction false} PartsBack(textType: string, content: seq<Part>)
    requires textType == "input_text" || textType == "output_text"
    ensures StrictParts(EncodeParts(textType, content)) ==
      if AllUsable(content) then Ok(NormalParts(content)) else Err(Invalid)
  {
    if content == [] {
      assert EncodeParts(textType, content) == [] && NormalParts(content) == [];
    } else {
      hide StrictPart, EncodePart, NormalPart, UsableImage;
      var rest := content[1..];
      PartBack(textType, content[0]);
      PartsBack(textType, rest);
      assert EncodeParts(textType, content) == [EncodePart(textType, content[0])] + EncodeParts(textType, rest);
      assert NormalParts(content) == [NormalPart(content[0])] + NormalParts(rest);
      StrictPartsCons(EncodePart(textType, content[0]), EncodeParts(textType, rest));
      assert content == [content[0]] + rest;
    }
  }

  predicate AllUsable(content: seq<Part>) {
    forall p <- content :: UsableImage(p)
  }

  lemma StrictPartsCons(v: Value, vs: seq<Value>)
    ensures StrictParts([v] + vs) ==
      if StrictPart(v).Err? then Err(StrictPart(v).error)
      else if StrictParts(vs).Err? then StrictParts(vs)
      else Ok([StrictPart(v).value] + StrictParts(vs).value)
  {
    hide StrictPart;
    assert ([v] + vs)[0] == v && ([v] + vs)[1..] == vs;
  }

  lemma ContentBack(textType: string, content: seq<Part>)
    requires textType == "input_text" || textType == "output_text"
    ensures StrictContent(EncodeContent(textType, content)) ==
      if AllUsable(content) then Ok(NormalContent(content)) else Err(Invalid)
  {
    hide StrictParts, EncodePart, NormalPart, JoinText, Streams.Join;
    JoinTextIsJoin(content);
    if !AllText(content) { PartsBack(textType, content); }
  }

  lemma ToolCallBack(call: ToolCall)
    ensures StrictItem(EncodeToolCall(call)) ==
      if !Blank(call.id) && !Blank(call.name) then Ok(Message(Assistant, [], None, [call], None)) else Err(Invalid)
  {
    hide Blank;
    var v := EncodeToolCall(call);
    FieldNames();
    assert Get(v, "type") == Some(Str("function_call")) && Get(v, "call_id") == Some(Str(call.id));
    assert Get(v, "name") == Some(Str(call.name)) && Get(v, "arguments") == Some(Str(call.arguments));
  }

  lemma FieldNames()
    ensures "type" != "role" && "type" != "content" && "role" != "content"
    ensures "type" != "call_id" && "type" != "name" && "type" != "arguments" && "type" != "output"
    ensures "call_id" != "name" && "call_id" != "arguments" && "name" != "arguments" && "call_id" != "output"
  {
  }

  lemma {:induction false} ToolCallsBack(calls: seq<ToolCall>)
    ensures StrictItems(EncodeToolCalls(calls)) ==
      if forall call <- calls :: !Blank(call.id) && !Blank(call.name) then Ok(NormalCalls(calls)) else Err(Invalid)
  {
    if calls == [] {
    } else {
      hide StrictItem, EncodeToolCall, Blank;
      ToolCallBack(calls[0]);
      ToolCallsBack(calls[1..]);
      var vs := EncodeToolCalls(calls);
      assert vs[0] == EncodeToolCall(calls[0]) && vs[1..] == EncodeToolCalls(calls[1..]);
      assert forall call <- calls :: call == calls[0] || call in calls[1..];
    }
  }

  lemma OutputBack(m: Message)
    requires m.role == Tool
    ensures StrictItem(EncodeOutput(m)) == if Bridgeable(m) then Ok(Normal(m)[0]) else Err(Invalid)
  {
    hide Blank, EncodeContent, StrictContent, NormalContent, UsableImage;
    var v := EncodeOutput(m);
    FieldNames();
    assert Get(v, "type") == Some(Str("function_call_output"));
    assert Get(v, "output") == Some(EncodeContent("input_text", m.content));
    assert Get(v, "call_id") == Some(if m.toolCallId.Some? then Str(m.toolCallId.value) else Null);
    ContentBack("input_text", m.content);
  }

  lemma MessageBack(m: Message)
    requires m.role != Tool
    ensures StrictItem(EncodeMessage(m)) ==
      if AllUsable(m.content) then Ok(Message(m.role, NormalContent(m.content), None, [], None)) else Err(Invalid)
  {
    hide EncodeContent, StrictContent, NormalContent, UsableImage;
    var v := EncodeMessage(m);
    FieldNames();
    var textType := if m.role == Assistant then "output_text" else "input_text";
    assert Get(v, "type").None?;
    assert Get(v, "role") == Some(Str(EncodeRole(m.role)));
    assert Get(v, "content") == Some(EncodeContent(textType, m.content));
    ContentBack(textType, m.content);
  }

  lemma One(v: Value)
    ensures StrictItems([v]) == match StrictItem(v)
      case Err(e) => Err(e)
      case Ok(m) => Ok([m])
  {
    hide StrictItem;
    var vs := [v];
    assert vs[0] == v && vs[1..] == [];
    NoItems();
    if StrictItem(v).Ok? { assert [StrictItem(v).value] + [] == [StrictItem(v).value]; }
  }

  /** One message: parsing its items gives its normal form, or fails exactly when it cannot be bridged. */
  lemma ItemsBack(m: Message)
    ensures StrictItems(Encode(m)) == if Bridgeable(m) then Ok(Normal(m)) else Err(Invalid)
  {
    hide StrictItem, EncodeMessage, EncodeOutput, NormalContent, Blank, UsableImage, StrictItems,
        EncodeToolCalls, NormalCalls;
    if m.role == Tool {
      OutputBack(m);
      One(EncodeOutput(m));
    } else {
      var front := if m.content != [] || m.toolCalls == [] then [EncodeMessage(m)] else [];
      StrictAppend(front, EncodeToolCalls(m.toolCalls));
      ToolCallsBack(m.toolCalls);
      MessageBack(m);
      One(EncodeMessage(m));
      NoItems();
      assert StrictItems(Encode(m)).Ok? && front == [] ==> [] + NormalCalls(m.toolCalls) == NormalCalls(m.toolCalls);
    }
  }

  lemma NoItems()
    ensures StrictItems([]) == Ok([])
  {
  }

  /**
   Printer and parser: the strict parser reads the printed items of a message list back as the list's
   normal form exactly when every message has nonblank ids and names and usable images; otherwise it fails.
   */
  lemma {:induction false} PrintThenParse(ms: seq<Message>)
    ensures StrictItems(EncodeAll(ms)) == if forall m <- ms :: Bridgeable(m) then Ok(NormalAll(ms)) else Err(Invalid)
  {
    hide Encode, Normal, StrictItem, Bridgeable;
    if ms == [] {
      NoItems();
    } else {
      ItemsBack(ms[0]);
      PrintThenParse(ms[1..]);
      StrictAppend(Encode(ms[0]), EncodeAll(ms[1..]));
      assert forall m <- ms :: m == ms[0] || m in ms[1..];
    }
  }

  lemma NormalContentIsFixed(content: seq<Part>)
    ensures NormalContent(NormalContent(content)) == NormalContent(content)
    ensures NormalContent(content) != []
  {
    var n := NormalContent(content);
    if AllText(content) {
      var t := Streams.Join(Texts(content));
      assert [Text(t)][1..] == [];
      assert Texts([Text(t)]) == [t];
    } else {
      var k :| 0 <= k < |content| && !content[k].Text?;
      assert n[k] in n && !n[k].Text?;
    }
  }

  /** Normal forms are their own normal form. */
  lemma {:induction false} NormalIsFixed(m: Message)
    ensures NormalAll(Normal(m)) == Normal(m)
  {
    NormalContentIsFixed(m.content);
    if m.role == Tool {
      OneNormal(Normal(m)[0]);
      assert Normal(m) == [Normal(m)[0]];
    } else {
      var front := if m.content != [] || m.toolCalls == []
        then [Message(m.role, NormalContent(m.content), None, [], None)] else [];
      NormalAppend(front, NormalCalls(m.toolCalls));
      CallsAreNormal(m.toolCalls);
      if front != [] {
        OneNormal(front[0]);
        assert Normal(front[0]) == front;
      }
    }
  }

  lemma OneNormal(m: Message)
    ensures NormalAll([m]) == Normal(m)
  {
    assert [m][1..] == [];
    assert Normal(m) + [] == Normal(m);
  }

  lemma {:induction false} NormalAppend(a: seq<Message>, b: seq<Message>)
    ensures NormalAll(a + b) == NormalAll(a) + NormalAll(b)
  {
    if a == [] {
      assert a + b == b;
    } else {
      hide Normal;
      assert (a + b)[1..] == a[1..] + b;
      NormalAppend(a[1..], b);
    }
  }

  lemma {:induction false} CallsAreNormal(calls: seq<ToolCall>)
    ensures NormalAll(NormalCalls(calls)) == NormalCalls(calls)
  {
    hide Normal, NormalAll, NormalCalls;
    if calls == [] {
      NoCalls();
    } else {
      var first := Message(Assistant, [], None, [calls[0]], None);
      CallsAreNormal(calls[1..]);
      CallFirst(calls);
      NormalAppend([first], NormalCalls(calls[1..]));
      OneNormal(first);
      OneCallIsNormal(calls[0]);
    }
  }

  lemma NoCalls()
    ensures NormalCalls([]) == [] && NormalAll([]) == []
  {
  }

  lemma CallFirst(calls: seq<ToolCall>)
    requires calls != []
    ensures NormalCalls(calls) == [Message(Assistant, [], None, [calls[0]], None)] + NormalCalls(calls[1..])
  {
  }

  lemma OneCallIsNormal(call: ToolCall)
    ensures var m := Message(Assistant, [], None, [call], None); Normal(m) == [m]
  {
    hide NormalContent;
    CallFirst([call]);
    assert [call][1..] == [] && NormalCalls([]) == [];
  }

  lemma {:induction false} NormalAllIsFixed(ms: seq<Message>)
    ensures NormalAll(NormalAll(ms)) == NormalAll(ms)
  {
    if ms == [] {
    } else {
      hide Normal;
      NormalIsFixed(ms[0]);
      NormalAllIsFixed(ms[1..]);
      NormalAppend(Normal(ms[0]), NormalAll(ms[1..]));
    }
  }

  /** A message can be bridged exactly when every message of its normal form can. */
  lemma NormalIsBridgeable(m: Message)
    ensures (forall n <- Normal(m) :: Bridgeable(n)) <==> Bridgeable(m)
  {
    hide UsableImage, Blank;
    NormalIsUsable(m.content);
    if m.role == Tool {
      assert Normal(m)[0] in Normal(m);
    } else {
      CallsAreBridgeable(m.toolCalls);
      var front := if m.content != [] || m.toolCalls == []
        then [Message(m.role, NormalContent(m.content), None, [], None)] else [];
      assert forall n <- Normal(m) :: n in front || n in NormalCalls(m.toolCalls);
      assert forall n <- front + NormalCalls(m.toolCalls) :: n in Normal(m);
      if front != [] { assert front[0] in Normal(m); }
    }
  }

  lemma NormalIsUsable(content: seq<Part>)
    ensures AllUsable(NormalContent(content)) <==> AllUsable(content)
  {
    hide Blank, Streams.Join;
    if !AllText(content) {
      var normal := NormalParts(content);
      assert forall k :: 0 <= k < |content| ==> normal[k] == NormalPart(content[k]) && normal[k] in normal;
      assert forall k :: 0 <= k < |content| ==> UsableImage(NormalPart(content[k])) == UsableImage(content[k]);
    }
  }

  lemma {:induction false} CallsAreBridgeable(calls: seq<ToolCall>)
    ensures (forall n <- NormalCalls(calls) :: Bridgeable(n)) <==>
      forall call <- calls :: !Blank(call.id) && !Blank(call.name)
  {
    if calls == [] {
    } else {
      hide Blank;
      CallsAreBridgeable(calls[1..]);
      var first := Message(Assistant, [], None, [calls[0]], None);
      assert NormalCalls(calls) == [first] + NormalCalls(calls[1..]);
      assert calls == [calls[0]] + calls[1..];
      assert Bridgeable(first) <==> !Blank(calls[0].id) && !Blank(calls[0].name) by {
        assert calls[0] in first.toolCalls;
      }
    }
  }

  lemma {:induction false} NormalAllIsBridgeable(ms: seq<Message>)
    ensures (forall n <- NormalAll(ms) :: Bridgeable(n)) <==> forall m <- ms :: Bridgeable(m)
  {
    if ms == [] {
    } else {
      hide Normal, Bridgeable;
      NormalIsBridgeable(ms[0]);
      NormalAllIsBridgeable(ms[1..]);
      assert ms == [ms[0]] + ms[1..];
    }
  }

  /** Normal forms are fixed points of printing and parsing, exactly for messages that can be bridged. */
  lemma NormalFormsComeBack(ms: seq<Message>)
    ensures StrictItems(EncodeAll(NormalAll(ms))) == Ok(NormalAll(ms)) <==> forall m <- ms :: Bridgeable(m)
  {
    hide Bridgeable, StrictItems, EncodeAll, NormalAll;
    PrintThenParse(NormalAll(ms));
    NormalAllIsFixed(ms);
    NormalAllIsBridgeable(ms);
  }

  // ----- The lenient parser -----

  function LenientRole(role: string): Role {
    if role == "user" then User
    else if role == "assistant" then Assistant
    else if role == "system" || role == "developer" then System
    else if role == "tool" then Tool
    else User
  }

  function LenientPart(v: Value): Option<Part> {
    match AsStr(Get(v, "type"))
    case None => None
    case Some(kind) =>
      if kind == "input_image" then
        var url, file := Get(v, "image_url"), AsStr(Get(v, "file_id"));
        if url.None? && file.None? then None else Some(Image(url, file, AsStr(Get(v, "detail"))))
      else if kind == "input_text" || kind == "text" || kind == "output_text" then
        var text := AsStr(OrElse(Get(v, "text"), Get(v, "content")));
        if text.Some? then Some(Text(text.value)) else None
      else if kind == "refusal" then
        var text := AsStr(Get(v, "refusal"));
        if text.Some? then Some(Text(text.value)) else None
      else None
  }

  function LenientParts(vs: seq<Value>): seq<Part> {
    if vs == [] then []
    else
      var p := LenientPart(vs[0]);
      (if p.Some? then [p.value] else []) + LenientParts(vs[1..])
  }

  function LenientContent(v: Value): Result<seq<Part>, Fault> {
    match v
    case Str(s) => Ok([Text(s)])
    case Arr(parts) => Ok(LenientParts(parts))
    case _ => Err(Invalid)
  }

  function LenientMessage(v: Value): Result<Message, Fault> {
    var role := AsStr(Get(v, "role"));
    if role.None? || Get(v, "content").None? then Err(Invalid)
    else
      match LenientContent(Get(v, "content").value)
      case Err(e) => Err(e)
      case Ok(content) => Ok(Message(LenientRole(role.value), content, AsStr(Get(v, "call_id")), [], None))
  }

  function LenientOutput(v: Value): Result<Message, Fault> {
    var output := if Get(v, "output").Some? then Get(v, "output").value else Null;
    match if output.Null? then Ok([]) else LenientContent(output)
    case Err(e) => Err(e)
    case Ok(content) => Ok(Message(Tool, content, AsStr(Get(v, "call_id")), [], None))
  }

  /** JSON text of a value that is not a string, as `Value::to_string` prints it, is a parameter. */
  function LenientCall(toText: Value -> string, v: Value): Result<Message, Fault> {
    var id := AsStr(OrElse(Get(v, "call_id"), Get(v, "id")));
    var name := AsStr(Get(v, "name"));
    if name.None? then Err(Invalid)
    else
      var arguments := match Get(v, "arguments")
        case None => "{}"
        case Some(a) => if a.Str? then a.s else toText(a);
      Ok(Message(Assistant, [], None,
        [ToolCall(if id.Some? then id.value else "call_unknown", name.value, arguments)], None))
  }

  /** `reasoning_text`: the texts of the parts of the expected type, joined by line feeds. */
  function ReasoningTexts(vs: seq<Value>, expected: string): seq<Part> {
    if vs == [] then []
    else
      var kind, text := AsStr(Get(vs[0], "type")), AsStr(Get(vs[0], "text"));
      (if (kind.None? || kind.value == expected) && text.Some? then [Text(text.value)] else [])
      + ReasoningTexts(vs[1..], expected)
  }

  function ReasoningText(v: Option<Value>, expected: string): string {
    var parts := AsArr(v);
    if parts.Some? then JoinText(ReasoningTexts(parts.value, expected)) else ""
  }

  function LenientReasoning(v: Value): Option<Message> {
    var summary := ReasoningText(Get(v, "summary"), "summary_text");
    var text := if summary == "" then ReasoningText(Get(v, "content"), "reasoning_text") else summary;
    if text == "" then None else Some(Message(Assistant, [], None, [], Some(text)))
  }

  function LenientItem(toText: Value -> string, v: Value): Result<Option<Message>, Fault> {
    match AsStr(Get(v, "type"))
    case None => Wrap(LenientMessage(v))
    case Some(kind) =>
      if kind == "function_call_output" then Wrap(LenientOutput(v))
      else if kind == "function_call" then Wrap(LenientCall(toText, v))
      else if kind == "reasoning" then Ok(LenientReasoning(v))
      else if kind == "message" then Wrap(LenientMessage(v))
      else Ok(None)
  }

  function Wrap(r: Result<Message, Fault>): Result<Option<Message>, Fault> {
    match r
    case Ok(m) => Ok(Some(m))
    case Err(e) => Err(e)
  }

  function LenientItems(toText: Value -> string, vs: seq<Value>): Result<seq<Message>, Fault> {
    if vs == [] then Ok([])
    else
      var init := LenientItems(toText, vs[..|vs| - 1]);
      match init
      case Err(e) => Err(e)
      case Ok(ms) =>
        match LenientItem(toText, vs[|vs| - 1])
        case Err(e) => Err(e)
        case Ok(m) => Ok(ms + (if m.Some? then [m.value] else []))
  }

  lemma {:induction false} LenientFails(toText: Value -> string, vs: seq<Value>, n: nat)
    requires n <= |vs| && LenientItems(toText, vs[..n]).Err?
    ensures LenientItems(toText, vs) == LenientItems(toText, vs[..n])
  {
    if n == |vs| {
      assert vs[..n] == vs;
    } else {
      assert vs[..|vs| - 1][..n] == vs[..n];
      LenientFails(toText, vs[..|vs| - 1], n);
    }
  }

  function LenientInput(toText: Value -> string, input: Value): Result<seq<Message>, Fault> {
    match input
    case Null => Ok([])
    case Str(s) => Ok([Message(User, [Text(s)], None, [], None)])
    case Arr(items) => LenientItems(toText, items)
    case _ => Err(Invalid)
  }

  /** `decode_input`: the loop over the items. */
  method DecodeInput(toText: Value -> string, input: Value) returns (r: Result<seq<Message>, Fault>)
    ensures r == LenientInput(toText, input)
  {
    if input.Null? { return Ok([]); }
    if input.Str? { return Ok([Message(User, [Text(input.s)], None, [], None)]); }
    if !input.Arr? { return Err(Invalid); }
    hide LenientItem;
    var messages := [];
    for i := 0 to |input.items|
      invariant LenientItems(toText, input.items[..i]) == Ok(messages)
    {
      var done := input.items[..i + 1];
      assert |done| == i + 1 && done[..i] == input.items[..i] && done[i] == input.items[i];
      assert messages + [] == messages;
      match LenientItem(toText, input.items[i]) {
        case Err(e) =>
          LenientFails(toText, input.items, i + 1);
          return Err(e);
        case Ok(m) => if m.Some? { messages := messages + [m.value]; }
      }
    }
    assert input.items[..|input.items|] == input.items;
    r := Ok(messages);
  }

  // ----- What only the lenient parser reads -----

  /** The texts of the parts of a reasoning list that are of the expected type, or of none. */
  function TextsOfType(vs: seq<Value>, expected: string): seq<string> {
    if vs == [] then []
    else
      var chosen := (AsStr(Get(vs[0], "type")) == Some(expected) || AsStr(Get(vs[0], "type")) == None)
        && AsStr(Get(vs[0], "text")).Some?;
      (if chosen then [AsStr(Get(vs[0], "text")).value] else []) + TextsOfType(vs[1..], expected)
  }

  lemma {:induction false} ReasoningTextsAre(vs: seq<Value>, expected: string)
    ensures Texts(ReasoningTexts(vs, expected)) == TextsOfType(vs, expected)
  {
    if vs == [] {
    } else {
      ReasoningTextsAre(vs[1..], expected);
      var kind, text := AsStr(Get(vs[0], "type")), AsStr(Get(vs[0], "text"));
      var front := if (kind.None? || kind.value == expected) && text.Some? then [Text(text.value)] else [];
      TextsAppend(front, ReasoningTexts(vs[1..], expected));
      assert front != [] ==> front[1..] == [];
    }
  }

  function JoinedTexts(v: Option<Value>, expected: string): string {
    if AsArr(v).Some? then Streams.Join(TextsOfType(AsArr(v).value, expected)) else ""
  }

  /** A reasoning item becomes a message with its summary texts, or else its own; without any text it is skipped. */
  lemma ReasoningMeaning(toText: Value -> string, v: Value)
    requires Get(v, "type") == Some(Str("reasoning"))
    ensures var summary := JoinedTexts(Get(v, "summary"), "summary_text");
      var own := JoinedTexts(Get(v, "content"), "reasoning_text");
      LenientItem(toText, v) ==
        if summary != "" then Ok(Some(Message(Assistant, [], None, [], Some(summary))))
        else if own != "" then Ok(Some(Message(Assistant, [], None, [], Some(own))))
        else Ok(None)
  {
    hide JoinText, Streams.Join, ReasoningTexts;
    ReasoningTextIs(Get(v, "summary"), "summary_text");
    ReasoningTextIs(Get(v, "content"), "reasoning_text");
  }

  lemma ReasoningTextIs(v: Option<Value>, expected: string)
    ensures ReasoningText(v, expected) == JoinedTexts(v, expected)
  {
    hide JoinText, Streams.Join, ReasoningTexts;
    if AsArr(v).Some? {
      ReasoningTextsAre(AsArr(v).value, expected);
      JoinTextIsJoin(ReasoningTexts(AsArr(v).value, expected));
    }
  }

  /** Items of unknown type are skipped. */
  lemma UnknownIsSkipped(toText: Value -> string, v: Value, kind: string)
    requires Get(v, "type") == Some(Str(kind))
    requires kind !in {"message", "function_call", "function_call_output", "reasoning"}
    ensures LenientItem(toText, v) == Ok(None)
  {
  }

  /** A call needs a name only: without an id it is `call_unknown`, without arguments `{}`. */
  lemma LenientCallMeaning(toText: Value -> string, v: Value)
    requires Get(v, "type") == Some(Str("function_call"))
    ensures LenientItem(toText, v).Ok? <==> AsStr(Get(v, "name")).Some?
    ensures LenientItem(toText, v).Ok? ==>
      var id := if Get(v, "call_id").Some? then Get(v, "call_id") else Get(v, "id");
      var arguments := Get(v, "arguments");
      LenientItem(toText, v) == Ok(Some(Message(Assistant, [], None, [ToolCall(
        if AsStr(id).Some? then AsStr(id).value else "call_unknown",
        AsStr(Get(v, "name")).value,
        if arguments.None? then "{}" else if arguments.value.Str? then arguments.value.s else toText(arguments.value))],
        None)))
  {
  }

  /** A message needs a role and content; unknown roles count as the user's, and a call id is kept. */
  lemma LenientMessageMeaning(toText: Value -> string, v: Value, role: string)
    requires Get(v, "type") == Some(Str("message")) || AsStr(Get(v, "type")) == None
    requires Get(v, "role") == Some(Str(role)) && Get(v, "content").Some? && LenientContent(Get(v, "content").value).Ok?
    ensures var m := LenientItem(toText, v).value;
      && LenientItem(toText, v).Ok? && m.Some?
      && m.value.content == LenientContent(Get(v, "content").value).value
      && m.value.toolCallId == AsStr(Get(v, "call_id")) && m.value.toolCalls == [] && m.value.reasoning == None
      && (m.value.role == Assistant <==> role == "assistant") && (m.value.role == Tool <==> role == "tool")
      && (m.value.role == System <==> role == "system" || role == "developer")
  {
    hide LenientContent;
  }

  /** Without an output a tool message is empty. */
  lemma LenientOutputMeaning(toText: Value -> string, v: Value)
    requires Get(v, "type") == Some(Str("function_call_output"))
    ensures Get(v, "output") == None || Get(v, "output") == Some(Null) ==>
      LenientItem(toText, v) == Ok(Some(Message(Tool, [], AsStr(Get(v, "call_id")), [], None)))
    ensures Get(v, "output").Some? && Get(v, "output").value.Arr? ==>
      LenientItem(toText, v)
        == Ok(Some(Message(Tool, LenientParts(Get(v, "output").value.items), AsStr(Get(v, "call_id")), [], None)))
  {
    hide LenientParts;
  }

  /** Unreadable parts are dropped, the others stay in order. */
  lemma {:induction false} LenientPartsAppend(a: seq<Value>, b: seq<Value>)
    ensures LenientParts(a + b) == LenientParts(a) + LenientParts(b)
  {
    if a == [] {
      assert a + b == b;
    } else {
      hide LenientPart;
      assert (a + b)[1..] == a[1..] + b;
      LenientPartsAppend(a[1..], b);
    }
  }

  /** Where the lenient parser reads a part that the strict one does not. */
  lemma LenientPartMeaning(v: Value)
    ensures Get(v, "type") in {Some(Str("input_text")), Some(Str("output_text")), Some(Str("text"))} ==>
      LenientPart(v) ==
        if Get(v, "text").Some? then (if Get(v, "text").value.Str? then Some(Text(Get(v, "text").value.s)) else None)
        else if AsStr(Get(v, "content")).Some? then Some(Text(AsStr(Get(v, "content")).value)) else None
    ensures LenientPart(v).Some? ==>
      AsStr(Get(v, "type")) in {Some("input_text"), Some("output_text"), Some("text"), Some("refusal"),
        Some("input_image")}
  {
  }

  // ----- Strict refines lenient -----

  predicate BlankText(v: Option<Value>) {
    AsStr(v).Some? && Blank(AsStr(v).value)
  }

  /** An image whose file id or detail is blank text reads differently: the strict parser drops the field. */
  predicate PlainPart(v: Value) {
    AsStr(Get(v, "type")) == Some("input_image") ==> !BlankText(Get(v, "file_id")) && !BlankText(Get(v, "detail"))
  }

  predicate PlainParts(v: Option<Value>) {
    AsArr(v).Some? ==> forall p <- AsArr(v).value :: PlainPart(p)
  }

  /** No such image in the content an item is read for, and no call id on a message item. */
  predicate Plain(v: Value) {
    var kind := AsStr(Get(v, "type"));
    if kind == Some("function_call_output") then PlainParts(Get(v, "output"))
    else if kind.None? || kind.value == "message" then
      PlainParts(Get(v, "content")) && AsStr(Get(v, "call_id")).None?
    else true
  }

  lemma PartsRead(v: Value)
    requires StrictPart(v).Ok?
    ensures LenientPart(v).Some? && (LenientPart(v).value == StrictPart(v).value <==> PlainPart(v))
  {
  }

  lemma {:induction false} PartListsRead(vs: seq<Value>)
    requires StrictParts(vs).Ok?
    ensures |LenientParts(vs)| == |StrictParts(vs).value|
    ensures LenientParts(vs) == StrictParts(vs).value <==> forall v <- vs :: PlainPart(v)
  {
    if vs == [] {
    } else {
      hide StrictPart, LenientPart, PlainPart;
      PartsRead(vs[0]);
      PartListsRead(vs[1..]);
      assert forall v <- vs :: v == vs[0] || v in vs[1..];
      var p, q := LenientPart(vs[0]).value, StrictPart(vs[0]).value;
      SameJoin([p], LenientParts(vs[1..]), [q], StrictParts(vs[1..]).value);
      assert [p] == [q] <==> p == q by { assert [p][0] == p && [q][0] == q; }
      assert (forall v <- vs :: PlainPart(v)) <==> PlainPart(vs[0]) && forall v <- vs[1..] :: PlainPart(v);
    }
  }

  /** Joined lists agree exactly when their pieces do. */
  lemma SameJoin<T>(a: seq<T>, b: seq<T>, c: seq<T>, d: seq<T>)
    requires |a| == |c|
    ensures a + b == c + d <==> a == c && b == d
  {
    if a + b == c + d {
      assert (a + b)[..|a|] == a && (c + d)[..|a|] == c;
      assert (a + b)[|a|..] == b && (c + d)[|a|..] == d;
    }
  }

  lemma ContentReads(v: Value)
    requires StrictContent(v).Ok?
    ensures LenientContent(v).Ok? && (LenientContent(v) == StrictContent(v) <==> PlainParts(Some(v)))
  {
    hide PlainPart;
    if v.Arr? { PartListsRead(v.items); }
  }

  lemma ItemReads(toText: Value -> string, v: Value)
    requires StrictItem(v).Ok?
    ensures LenientItem(toText, v).Ok? && LenientItem(toText, v).value.Some?
    ensures LenientItem(toText, v) == Ok(Some(StrictItem(v).value)) <==> Plain(v)
  {
    hide StrictContent, LenientContent, Blank, PlainParts;
    var kind := AsStr(Get(v, "type"));
    if kind.None? || kind.value == "message" {
      ContentReads(Get(v, "content").value);
    } else if kind.value == "function_call_output" {
      ContentReads(Get(v, "output").value);
      NullIsNoContent();
    }
  }

  lemma NullIsNoContent()
    ensures StrictContent(Null).Err?
  {
  }

  lemma LenientLast(toText: Value -> string, vs: seq<Value>, v: Value)
    requires LenientItems(toText, vs).Ok? && LenientItem(toText, v).Ok? && LenientItem(toText, v).value.Some?
    ensures LenientItems(toText, vs + [v]) == Ok(LenientItems(toText, vs).value + [LenientItem(toText, v).value.value])
  {
    hide LenientItem;
    assert (vs + [v])[..|vs|] == vs && (vs + [v])[|vs|] == v;
  }

  lemma {:induction false} StrictCount(vs: seq<Value>)
    requires StrictItems(vs).Ok?
    ensures |StrictItems(vs).value| == |vs|
  {
    hide StrictItem;
    if vs == [] {
    } else {
      StrictCount(vs[1..]);
    }
  }

  lemma {:induction false} ItemListsRead(toText: Value -> string, vs: seq<Value>)
    requires StrictItems(vs).Ok?
    ensures LenientItems(toText, vs).Ok? && |LenientItems(toText, vs).value| == |vs|
    ensures LenientItems(toText, vs) == StrictItems(vs) <==> forall v <- vs :: Plain(v)
  {
    hide StrictItem, LenientItem, Plain, StrictItems;
    if vs == [] {
      NoItems();
    } else {
      var n := |vs| - 1;
      var init, last := vs[..n], vs[n];
      assert vs == init + [last];
      StrictAppend(init, [last]);
      One(last);
      ItemListsRead(toText, init);
      ItemReads(toText, last);
      hide LenientItems;
      LenientLast(toText, init, last);
      StrictCount(init);
      SameJoin(LenientItems(toText, init).value, [LenientItem(toText, last).value.value],
        StrictItems(init).value, [StrictItem(last).value]);
      assert (forall v <- vs :: Plain(v)) <==> (forall v <- init :: Plain(v)) && Plain(last);
    }
  }

  /**
   Where the strict parser succeeds, the lenient one succeeds too, with as many messages; they are the
   same messages exactly when no image has a blank file id or detail and no message item a call id.
   */
  lemma StrictRefinesLenient(toText: Value -> string, vs: seq<Value>)
    requires StrictItems(vs).Ok?
    ensures LenientInput(toText, Arr(vs)).Ok? && |LenientInput(toText, Arr(vs)).value| == |vs|
    ensures LenientInput(toText, Arr(vs)) == StrictItems(vs) <==> forall v <- vs :: Plain(v)
  {
    hide StrictItem, LenientItem, Plain;
    ItemListsRead(toText, vs);
  }

  // ----- Validation -----

  /** The item checks of `validate_responses_bridge_payload`. */
  predicate ValidItem(item: Value) {
    && (Get(item, "phase").Some? ==> Get(item, "phase").value.Null?)
    && (var kind := AsStr(Get(item, "type"));
        kind.None? || kind.value == "message" || kind.value == "function_call" || kind.value == "function_call_output")
    && (AsArr(Get(item, "content")).Some? ==> forall p <- AsArr(Get(item, "content")).value :: ValidPart(p, false))
    && (AsArr(Get(item, "output")).Some? ==> forall p <- AsArr(Get(item, "output")).value :: ValidPart(p, true))
  }

  predicate ValidPart(part: Value, isOutput: bool) {
    var kind := AsStr(Get(part, "type"));
    kind.None? || kind.value == "input_text" || kind.value == "text"
    || (!isOutput && (kind.value == "output_text" || kind.value == "refusal"))
  }

  predicate ValidInput(input: Option<Value>) {
    match input
    case None => true
    case Some(Arr(items)) => forall item <- items :: ValidItem(item)
    case Some(v) => v.Null? || v.Str?
  }

  /** `validate_internal_request_for_bridge`: no image in any message. */
  predicate NoImages(ms: seq<Message>) {
    forall m <- ms :: AllText(m.content)
  }

  predicate ImageFree(v: Value) {
    AsStr(Get(v, "type")) != Some("input_image")
  }

  lemma ImageFreePart(v: Value)
    requires ImageFree(v)
    ensures LenientPart(v).Some? ==> LenientPart(v).value.Text?
    ensures StrictPart(v).Ok? ==> StrictPart(v).value.Text?
  {
  }

  lemma {:induction false} ValidPartsHaveNoImages(vs: seq<Value>)
    requires forall v <- vs :: ImageFree(v)
    ensures AllText(LenientParts(vs))
    ensures StrictParts(vs).Ok? ==> AllText(StrictParts(vs).value)
  {
    if vs == [] {
    } else {
      hide StrictPart, LenientPart, ImageFree;
      ImageFreePart(vs[0]);
      ValidPartsHaveNoImages(vs[1..]);
    }
  }

  lemma {:induction false} ValidLenientItems(toText: Value -> string, vs: seq<Value>)
    requires forall v <- vs :: ValidItem(v)
    requires LenientItems(toText, vs).Ok?
    ensures NoImages(LenientItems(toText, vs).value)
  {
    if vs == [] {
    } else {
      hide LenientItem, ValidItem;
      ValidLenientItems(toText, vs[..|vs| - 1]);
      ValidLenientItem(toText, vs[|vs| - 1]);
    }
  }

  lemma ValidLenientItem(toText: Value -> string, v: Value)
    requires ValidItem(v)
    ensures LenientItem(toText, v).Ok? && LenientItem(toText, v).value.Some? ==>
      AllText(LenientItem(toText, v).value.value.content)
  {
    hide LenientParts;
    if AsArr(Get(v, "content")).Some? { ValidPartsHaveNoImages(AsArr(Get(v, "content")).value); }
    if AsArr(Get(v, "output")).Some? { ValidPartsHaveNoImages(AsArr(Get(v, "output")).value); }
  }

  lemma ValidStrictItem(v: Value)
    requires ValidItem(v)
    ensures StrictItem(v).Ok? ==> AllText(StrictItem(v).value.content)
  {
    hide StrictParts, Blank;
    if AsArr(Get(v, "content")).Some? { ValidPartsHaveNoImages(AsArr(Get(v, "content")).value); }
    if AsArr(Get(v, "output")).Some? { ValidPartsHaveNoImages(AsArr(Get(v, "output")).value); }
  }

  lemma {:induction false} ValidStrictItems(vs: seq<Value>)
    requires (forall v <- vs :: ValidItem(v)) && StrictItems(vs).Ok?
    ensures NoImages(StrictItems(vs).value)
  {
    if vs == [] {
    } else {
      hide StrictItem, ValidItem;
      ValidStrictItem(vs[0]);
      ValidStrictItems(vs[1..]);
    }
  }

  /** A payload that passes the outer check and decodes, by either parser, passes the inner check. */
  lemma ValidatedPayloadsHaveNoImages(toText: Value -> string, input: Value)
    requires ValidInput(Some(input))
    ensures LenientInput(toText, input).Ok? ==> NoImages(LenientInput(toText, input).value)
    ensures input.Arr? && StrictItems(input.items).Ok? ==> NoImages(StrictItems(input.items).value)
  {
    if input.Arr? {
      if LenientItems(toText, input.items).Ok? { ValidLenientItems(toText, input.items); }
      if StrictItems(input.items).Ok? { ValidStrictItems(input.items); }
    }
  }

  /** What the outer check refuses. */
  lemma CheckRefuses(items: seq<Value>, item: Value)
    requires item in items
    ensures Get(item, "phase").Some? && !Get(item, "phase").value.Null? ==> !ValidInput(Some(Arr(items)))
    ensures var kind := AsStr(Get(item, "type"));
      kind.Some? && kind.value !in {"message", "function_call", "function_call_output"} ==>
        !ValidInput(Some(Arr(items)))
  {
    hide ValidPart;
  }

  /** A printed request passes the outer check exactly when no message that is printed has an image. */
  lemma {:induction false} PrintedIsValidIff(ms: seq<Message>)
    ensures ValidInput(Some(Arr(EncodeAll(ms)))) <==> NoImages(ms)
  {
    if ms == [] {
    } else {
      hide ValidItem, Encode, AllText;
      MessageIsValidIff(ms[0]);
      PrintedIsValidIff(ms[1..]);
      var first, rest := Encode(ms[0]), EncodeAll(ms[1..]);
      AllValidAppend(first, rest);
      assert ms == [ms[0]] + ms[1..];
      assert NoImages(ms) <==> AllText(ms[0].content) && NoImages(ms[1..]);
    }
  }

  lemma AllValidAppend(a: seq<Value>, b: seq<Value>)
    ensures (forall item <- a + b :: ValidItem(item)) <==>
      (forall item <- a :: ValidItem(item)) && (forall item <- b :: ValidItem(item))
  {
    hide ValidItem;
  }

  lemma MessageIsValidIff(m: Message)
    ensures (forall item <- Encode(m) :: ValidItem(item)) <==> AllText(m.content)
  {
    hide EncodeContent, ValidItem, AllText, EncodeToolCalls, EncodeToolCall;
    FieldNames();
    if m.role == Tool {
      OutputIsValidIff(m);
      assert Encode(m) == [EncodeOutput(m)];
    } else {
      MessageItemIsValidIff(m);
      CallsAreValid(m.toolCalls);
      var front := if m.content != [] || m.toolCalls == [] then [EncodeMessage(m)] else [];
      assert Encode(m) == front + EncodeToolCalls(m.toolCalls);
      assert (forall item <- Encode(m) :: ValidItem(item)) <==> (forall item <- front :: ValidItem(item));
      assert front == [] ==> AllText(m.content) by { EmptyIsText(); }
    }
  }

  lemma EmptyIsText()
    ensures AllText([])
  {
  }

  lemma ContentIsValidIff(textType: string, content: seq<Part>, isOutput: bool)
    requires textType == "input_text" || (textType == "output_text" && !isOutput)
    ensures var v := EncodeContent(textType, content);
      (v.Arr? ==> forall p <- v.items :: ValidPart(p, isOutput)) <==> AllText(content)
  {
    hide JoinText;
    if !AllText(content) {
      var p :| p in content && !p.Text?;
      var k :| 0 <= k < |content| && content[k] == p;
      var parts := EncodeParts(textType, content);
      PartPrinted(textType, p);
      assert parts[k] in parts && !ValidPart(parts[k], isOutput);
    }
  }

  lemma OutputIsValidIff(m: Message)
    requires m.role == Tool
    ensures ValidItem(EncodeOutput(m)) <==> AllText(m.content)
  {
    hide EncodeContent, AllText, ValidPart;
    FieldNames();
    var v := EncodeOutput(m);
    assert "phase" != "type" && "phase" != "call_id" && "phase" != "output" && "content" != "type"
      && "content" != "call_id" && "content" != "output";
    assert Get(v, "output") == Some(EncodeContent("input_text", m.content));
    assert Get(v, "type") == Some(Str("function_call_output")) && Get(v, "phase") == None && Get(v, "content") == None;
    ContentIsValidIff("input_text", m.content, true);
  }

  lemma MessageItemIsValidIff(m: Message)
    requires m.role != Tool
    ensures ValidItem(EncodeMessage(m)) <==> AllText(m.content)
  {
    hide EncodeContent, AllText, ValidPart;
    FieldNames();
    var v, textType := EncodeMessage(m), if m.role == Assistant then "output_text" else "input_text";
    assert "phase" != "role" && "phase" != "content" && "output" != "role" && "output" != "content";
    assert Get(v, "content") == Some(EncodeContent(textType, m.content));
    assert Get(v, "type") == None && Get(v, "phase") == None && Get(v, "output") == None;
    ContentIsValidIff(textType, m.content, false);
  }

  lemma {:induction false} CallsAreValid(calls: seq<ToolCall>)
    ensures forall item <- EncodeToolCalls(calls) :: ValidItem(item)
  {
    if calls == [] {
    } else {
      hide ValidItem;
      CallsAreValid(calls[1..]);
      CallIsValid(calls[0]);
    }
  }

  lemma CallIsValid(call: ToolCall)
    ensures ValidItem(EncodeToolCall(call))
  {
    FieldNames();
    var v := EncodeToolCall(call);
    assert "phase" != "type" && "phase" != "call_id" && "phase" != "name" && "phase" != "arguments";
    assert "content" != "call_id" && "content" != "name" && "content" != "arguments";
    assert "output" != "type" && "output" != "call_id" && "output" != "name" && "output" != "arguments";
    assert Get(v, "phase") == None && Get(v, "content") == None && Get(v, "output") == None;
    assert Get(v, "type") == Some(Str("function_call"));
  }
}
