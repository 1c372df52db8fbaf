// JSON values as encoding/json reads and writes them, without the bytes.
module Json {
  import opened Wrappers

  // The member names of the wire structs; Other stands for any other name.
  datatype Key =
    | Type | Payload | Text | Think | Encrypted | ImageUrl | AudioUrl | VideoUrl | Url | Id
    | UserInput | N | NextAttempt | MaxAttempts | WaitS | ErrorType | StatusCode
    | ContextUsage | ContextTokens | MaxContextTokens | TokenUsage | MessageId | PlanMode
    | InputOther | Output | InputCacheRead | InputCacheCreation
    | Function | Extras | Name | Arguments | ArgumentsPart | ToolCallId | ReturnValue | IsError | Message | Display
    | Path | OldText | NewText | IsSummary | Items | Language | Command | Data | Title | Status
    | RequestId | Response | Feedback | ParentToolCallId | AgentId | SubagentType | Event | Question | Error
    | Content | FilePath | Target | HookCount | Action | Reason | DurationMs
    | Other(name: string)

  // Numbers are opaque, except that one can tell which of them are whole.
  datatype Number = Whole(n: int) | Fractional(tag: int)

  datatype Json =
    | Null
    | Bool(b: bool)
    | Num(number: Number)
    | Str(s: string)
    | Arr(items: seq<Json>)
    | Obj(members: map<Key, Json>)

  type Members = map<Key, Json>

  // ---------------------------------------------------------------------------------------------
  // Writing: a member with omitempty is left out when it is empty
  // ---------------------------------------------------------------------------------------------

  function Put(o: Members, k: Key, j: Option<Json>): Members {
    if j.Some? then o[k := j.value] else o
  }

  function NonEmpty(s: string): Option<Json> {
    if s == "" then None else Some(Str(s))
  }

  function OptStr(s: Option<string>): Option<Json> {
    if s.Some? then Some(Str(s.value)) else None
  }

  function OptBool(b: Option<bool>): Option<Json> {
    if b.Some? then Some(Bool(b.value)) else None
  }

  function OptNat(n: Option<nat>): Option<Json> {
    if n.Some? then Some(Num(Whole(n.value))) else None
  }

  // ---------------------------------------------------------------------------------------------
  // Reading: a member that is missing or null leaves the field at its zero value
  // ---------------------------------------------------------------------------------------------

  function Get(o: Members, k: Key): Json {
    if k in o then o[k] else Null
  }

  // A struct can be read from an object or from null.
  function AsMembers(j: Json): Result<Members> {
    match j
    case Obj(members) => Ok(members)
    case Null => Ok(map[])
    case _ => Err
  }

  function AsString(j: Json): Result<string> {
    match j
    case Str(s) => Ok(s)
    case Null => Ok("")
    case _ => Err
  }

  function AsOptString(j: Json): Result<Option<string>> {
    match j
    case Str(s) => Ok(Some(s))
    case Null => Ok(None)
    case _ => Err
  }

  function AsBool(j: Json): Result<bool> {
    match j
    case Bool(b) => Ok(b)
    case Null => Ok(false)
    case _ => Err
  }

  function AsOptBool(j: Json): Result<Option<bool>> {
    match j
    case Bool(b) => Ok(Some(b))
    case Null => Ok(None)
    case _ => Err
  }

  // An unsigned integer below limit.
  function AsNat(j: Json, limit: nat): (r: Result<nat>)
    ensures r.Ok? && limit > 0 ==> r.value < limit
  {
    match j
    case Num(Whole(n)) => if 0 <= n < limit then Ok(n) else Err
    case Null => Ok(0)
    case _ => Err
  }

  function AsOptNat(j: Json, limit: nat): (r: Result<Option<nat>>)
    ensures r.Ok? && r.value.Some? ==> r.value.value < limit
  {
    match j
    case Num(Whole(n)) => if 0 <= n < limit then Ok(Some(n)) else Err
    case Null => Ok(None)
    case _ => Err
  }

  function AsOptNumber(j: Json): Result<Option<Number>> {
    match j
    case Num(n) => Ok(Some(n))
    case Null => Ok(None)
    case _ => Err
  }

  // A json.RawMessage keeps null apart from a missing member.
  function GetRaw(o: Members, k: Key): Option<Json> {
    if k in o then Some(o[k]) else None
  }

  // ---------------------------------------------------------------------------------------------
  // Arrays
  // ---------------------------------------------------------------------------------------------

  function MarshalAll<T>(xs: seq<T>, marshal: T -> Json): (js: seq<Json>)
    ensures |js| == |xs|
  {
    if xs == [] then [] else [marshal(xs[0])] + MarshalAll(xs[1..], marshal)
  }

  // An array with an element that cannot be read cannot be read.
  function ParseAll<T>(js: seq<Json>, parse: Json -> Result<T>): Result<seq<T>> {
    if js == [] then Ok([])
    else
      var first :- parse(js[0]);
      var rest :- ParseAll(js[1..], parse);
      Ok([first] + rest)
  }

  function Map<T, U>(xs: seq<T>, f: T -> U): (ys: seq<U>)
    ensures |ys| == |xs| && forall i | 0 <= i < |xs| :: ys[i] == f(xs[i])
  {
    if xs == [] then [] else [f(xs[0])] + Map(xs[1..], f)
  }

  // A round trip of the elements is one of the array.
  lemma {:induction false} AllRoundTrip<T(!new)>(xs: seq<T>, marshal: T -> Json, parse: Json -> Result<T>,
        normal: T -> T)
    requires forall x: T :: parse(marshal(x)) == Ok(normal(x))
    ensures ParseAll(MarshalAll(xs, marshal), parse) == Ok(Map(xs, normal))
  {
    if xs != [] {
      AllRoundTrip(xs[1..], marshal, parse, normal);
    }
  }

  lemma {:induction false} AllReadable<T>(js: seq<Json>, parse: Json -> Result<T>)
    ensures ParseAll(js, parse).Ok? <==> forall i | 0 <= i < |js| :: parse(js[i]).Ok?
  {
    if js != [] {
      AllReadable(js[1..], parse);
      assert forall i | 0 <= i < |js| - 1 :: js[1..][i] == js[i + 1];
      if parse(js[0]).Ok? && ParseAll(js[1..], parse).Ok? {
        forall i | 0 <= i < |js| ensures parse(js[i]).Ok? {
          if i > 0 {
            assert js[i] == js[1..][i - 1];
          }
        }
      }
    }
  }
}
