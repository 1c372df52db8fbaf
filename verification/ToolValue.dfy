// Display blocks and the return value of a tool: protocol/protocol_content.go.
module ToolValue {
  import opened Wrappers
  import opened Json
  import opened Content

  datatype TodoItem = TodoItem(title: string, status: string)

  datatype DisplayBlock = DisplayBlock(
    kind: string,
    text: string,
    path: string,
    oldText: string,
    newText: string,
    isSummary: Option<bool>,
    items: seq<TodoItem>,
    language: string,
    command: string,
    data: Option<Json>)

  datatype ToolReturnValue = ToolReturnValue(
    isError: bool,
    output: Content,
    message: string,
    display: seq<DisplayBlock>,
    extras: Option<Json>)

  // A list with omitempty.
  function OptList(js: seq<Json>): Option<Json> {
    if js == [] then None else Some(Arr(js))
  }

  function AsList(j: Json): Result<seq<Json>> {
    match j
    case Arr(items) => Ok(items)
    case Null => Ok([])
    case _ => Err
  }

  function MarshalItem(t: TodoItem): Json {
    Obj(map[Title := Str(t.title), Status := Str(t.status)])
  }

  function ParseItem(j: Json): Result<TodoItem> {
    var o :- AsMembers(j);
    var title :- AsString(Get(o, Title));
    var status :- AsString(Get(o, Status));
    Ok(TodoItem(title, status))
  }

  function MarshalDisplay(d: DisplayBlock): Json {
    Obj(DisplayMembers(d))
  }

  function DisplayMembers(d: DisplayBlock): Members {
    MoreMembers(d, TextMembers(d))
  }

  function TextMembers(d: DisplayBlock): Members {
    var o := Put(map[Type := Str(d.kind)], Text, NonEmpty(d.text));
    var o := Put(o, Path, NonEmpty(d.path));
    var o := Put(o, OldText, NonEmpty(d.oldText));
    Put(o, NewText, NonEmpty(d.newText))
  }

  function MoreMembers(d: DisplayBlock, o: Members): Members {
    var o := Put(o, IsSummary, OptBool(d.isSummary));
    var o := Put(o, Items, OptList(MarshalAll(d.items, MarshalItem)));
    var o := Put(o, Language, NonEmpty(d.language));
    var o := Put(o, Command, NonEmpty(d.command));
    Put(o, Data, d.data)
  }

  function ParseDisplay(j: Json): Result<DisplayBlock> {
    var o :- AsMembers(j);
    var kind :- AsString(Get(o, Type));
    var text :- AsString(Get(o, Text));
    var path :- AsString(Get(o, Path));
    var oldText :- AsString(Get(o, OldText));
    var newText :- AsString(Get(o, NewText));
    var isSummary :- AsOptBool(Get(o, IsSummary));
    var list :- AsList(Get(o, Items));
    var items :- ParseAll(list, ParseItem);
    var language :- AsString(Get(o, Language));
    var command :- AsString(Get(o, Command));
    Ok(DisplayBlock(kind, text, path, oldText, newText, isSummary, items, language, command, GetRaw(o, Data)))
  }

  function MarshalToolReturn(v: ToolReturnValue): Result<Json> {
    var output :- MarshalContent(v.output);
    var o := map[IsError := Bool(v.isError), Output := output, Message := Str(v.message)];
    var o := Put(o, Display, OptList(MarshalAll(v.display, MarshalDisplay)));
    Ok(Obj(Put(o, Extras, v.extras)))
  }

  function ParseToolReturn(j: Json): Result<ToolReturnValue> {
    var o :- AsMembers(j);
    var isError :- AsBool(Get(o, IsError));
    var output :- GetContent(o, Output);
    var message :- AsString(Get(o, Message));
    var list :- AsList(Get(o, Display));
    var display :- ParseAll(list, ParseDisplay);
    Ok(ToolReturnValue(isError, output, message, display, GetRaw(o, Extras)))
  }

  lemma ItemsRoundTrip(items: seq<TodoItem>)
    ensures var list := OptList(MarshalAll(items, MarshalItem));
            var js := AsList(if list.Some? then list.value else Null);
            js.Ok? && ParseAll(js.value, ParseItem) == Ok(items)
  {
    var same := (t: TodoItem) => t;
    forall t ensures ParseItem(MarshalItem(t)) == Ok(same(t)) {
    }
    AllRoundTrip(items, MarshalItem, ParseItem, same);
    assert Map(items, same) == items;
  }

  // The members the first half of the fields is read back from, and those of the second half.
  ghost predicate HasText(o: Members, d: DisplayBlock) {
    && Get(o, Type) == Str(d.kind)
    && GetRaw(o, Text) == NonEmpty(d.text)
    && GetRaw(o, Path) == NonEmpty(d.path)
    && GetRaw(o, OldText) == NonEmpty(d.oldText)
    && GetRaw(o, NewText) == NonEmpty(d.newText)
  }

  ghost predicate HasMore(o: Members, d: DisplayBlock) {
    && GetRaw(o, IsSummary) == OptBool(d.isSummary)
    && GetRaw(o, Items) == OptList(MarshalAll(d.items, MarshalItem))
    && GetRaw(o, Language) == NonEmpty(d.language)
    && GetRaw(o, Command) == NonEmpty(d.command)
    && GetRaw(o, Data) == d.data
  }

  lemma TextMembersHave(d: DisplayBlock)
    ensures HasText(TextMembers(d), d)
    ensures forall k | k in TextMembers(d) :: k in {Type, Text, Path, OldText, NewText}
  {
  }

  lemma MoreMembersKeep(d: DisplayBlock, o: Members)
    requires HasText(o, d)
    ensures HasText(MoreMembers(d, o), d)
  {
  }

  lemma MoreMembersHave(d: DisplayBlock, o: Members)
    requires forall k | k in o :: k in {Type, Text, Path, OldText, NewText}
    ensures HasMore(MoreMembers(d, o), d)
  {
  }

  lemma StringBack(o: Members, k: Key, s: string)
    requires GetRaw(o, k) == NonEmpty(s)
    ensures AsString(Get(o, k)) == Ok(s)
  {
  }

  lemma DisplayBack(o: Members, d: DisplayBlock)
    requires HasText(o, d) && HasMore(o, d)
    ensures ParseDisplay(Obj(o)) == Ok(d)
  {
    StringBack(o, Text, d.text);
    StringBack(o, Path, d.path);
    StringBack(o, OldText, d.oldText);
    StringBack(o, NewText, d.newText);
    assert AsOptBool(Get(o, IsSummary)) == Ok(d.isSummary);
    StringBack(o, Language, d.language);
    StringBack(o, Command, d.command);
    ItemsRoundTrip(d.items);
  }

  lemma DisplayRoundTrip(d: DisplayBlock)
    ensures ParseDisplay(MarshalDisplay(d)) == Ok(d)
  {
    TextMembersHave(d);
    MoreMembersKeep(d, TextMembers(d));
    MoreMembersHave(d, TextMembers(d));
    DisplayBack(DisplayMembers(d), d);
  }

  lemma DisplaysRoundTrip(ds: seq<DisplayBlock>)
    ensures var list := OptList(MarshalAll(ds, MarshalDisplay));
            var js := AsList(if list.Some? then list.value else Null);
            js.Ok? && ParseAll(js.value, ParseDisplay) == Ok(ds)
  {
    var same := (d: DisplayBlock) => d;
    forall d ensures ParseDisplay(MarshalDisplay(d)) == Ok(same(d)) {
      DisplayRoundTrip(d);
    }
    AllRoundTrip(ds, MarshalDisplay, ParseDisplay, same);
    assert Map(ds, same) == ds;
  }

  function NormalToolReturn(v: ToolReturnValue): ToolReturnValue {
    v.(output := NormalContent(v.output))
  }

  lemma ToolReturnMembers(v: ToolReturnValue, output: Json)
    ensures var o := Put(map[IsError := Bool(v.isError), Output := output, Message := Str(v.message)],
                         Display, OptList(MarshalAll(v.display, MarshalDisplay)));
            var o := Put(o, Extras, v.extras);
            && Get(o, IsError) == Bool(v.isError) && Output in o && o[Output] == output
                && Get(o, Message) == Str(v.message)
            && GetRaw(o, Display) == OptList(MarshalAll(v.display, MarshalDisplay)) && GetRaw(o, Extras) == v.extras
  {
  }

  lemma ToolReturnBack(o: Members, v: ToolReturnValue, output: Json)
    requires Get(o, IsError) == Bool(v.isError) && Output in o && o[Output] == output
    requires Get(o, Message) == Str(v.message)
    requires GetRaw(o, Display) == OptList(MarshalAll(v.display, MarshalDisplay)) && GetRaw(o, Extras) == v.extras
    requires ParseContent(output) == Ok(NormalContent(v.output))
    ensures ParseToolReturn(Obj(o)) == Ok(NormalToolReturn(v))
  {
    DisplaysRoundTrip(v.display);
  }

  lemma ToolReturnRoundTrip(v: ToolReturnValue)
    ensures MarshalToolReturn(v).Err? <==> Ambiguous(v.output)
    ensures MarshalToolReturn(v).Ok? ==> ParseToolReturn(MarshalToolReturn(v).value) == Ok(NormalToolReturn(v))
  {
    ContentRoundTrip(v.output);
    if !Ambiguous(v.output) {
      var output := MarshalContent(v.output).value;
      ToolReturnMembers(v, output);
      ToolReturnBack(MarshalToolReturn(v).value.members, v, output);
    }
  }
}
