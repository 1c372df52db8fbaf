// Content parts, UserInput and ToolOutput: protocol/protocol_content.go.
module Content {
  import opened Wrappers
  import opened Json

  datatype TextPart = TextPart(text: string)

  datatype ThinkPart = ThinkPart(think: string, encrypted: string)

  datatype MediaURL = MediaURL(url: string, id: string)

  // The struct of an image, audio or video part has one member, named like the part.
  datatype MediaPart = MediaPart(url: MediaURL)

  datatype ContentPart = ContentPart(
    kind: string,
    text: Option<TextPart>,
    think: Option<ThinkPart>,
    imageURL: Option<MediaPart>,
    audioURL: Option<MediaPart>,
    videoURL: Option<MediaPart>)

  const TEXT := "text"
  const THINK := "think"

  const ZERO_PART := ContentPart("", None, None, None, None, None)

  // UserInput and ToolOutput have the same shape and the same methods.
  datatype Content = TextOrParts(text: string, parts: seq<ContentPart>)

  // ---------------------------------------------------------------------------------------------
  // ContentPart
  // ---------------------------------------------------------------------------------------------

  function MarshalMedia(p: Option<MediaPart>, k: Key): Option<Json> {
    if p.None? then None
    else Some(Obj(map[k := Obj(Put(map[Url := Str(p.value.url.url)], Id, NonEmpty(p.value.url.id)))]))
  }

  function MarshalText(p: Option<TextPart>): Option<Json> {
    if p.None? then None else Some(Obj(map[Text := Str(p.value.text)]))
  }

  function MarshalThink(p: Option<ThinkPart>): Option<Json> {
    if p.None? then None
    else Some(Obj(Put(map[Think := Str(p.value.think)], Encrypted, NonEmpty(p.value.encrypted))))
  }

  // A text or think part is flat, every other part is nested.
  function MarshalPart(cp: ContentPart): Json {
    if cp.kind == TEXT then
      Obj(map[Type := Str(cp.kind), Text := Str(if cp.text.Some? then cp.text.value.text else "")])
    else if cp.kind == THINK then
      Obj(Put(map[Type := Str(cp.kind), Think := Str(if cp.think.Some? then cp.think.value.think else "")],
              Encrypted, if cp.think.Some? then NonEmpty(cp.think.value.encrypted) else None))
    else
      Obj(MarshalNested(cp))
  }

  function MarshalNested(cp: ContentPart): Members {
    var o := Put(map[Type := Str(cp.kind)], Text, MarshalText(cp.text));
    var o := Put(o, Think, MarshalThink(cp.think));
    var o := Put(o, ImageUrl, MarshalMedia(cp.imageURL, ImageUrl));
    var o := Put(o, AudioUrl, MarshalMedia(cp.audioURL, AudioUrl));
    Put(o, VideoUrl, MarshalMedia(cp.videoURL, VideoUrl))
  }

  function AsMedia(j: Json, k: Key): Result<Option<MediaPart>> {
    if j.Null? then Ok(None)
    else
      var o :- AsMembers(j);
      var m :- AsMembers(Get(o, k));
      var url :- AsString(Get(m, Url));
      var id :- AsString(Get(m, Id));
      Ok(Some(MediaPart(MediaURL(url, id))))
  }

  function AsTextPart(j: Json): Result<TextPart> {
    var o :- AsMembers(j);
    var text :- AsString(Get(o, Text));
    Ok(TextPart(text))
  }

  function AsThinkPart(j: Json): Result<ThinkPart> {
    var o :- AsMembers(j);
    var think :- AsString(Get(o, Think));
    var encrypted :- AsString(Get(o, Encrypted));
    Ok(ThinkPart(think, encrypted))
  }

  // The member text as a string or as an object; what is neither is passed over. A null that is
  // present is read as the empty string.
  function TextOf(raw: Option<Json>): Option<TextPart> {
    if raw.None? then None
    else if AsString(raw.value).Ok? then Some(TextPart(AsString(raw.value).value))
    else if AsTextPart(raw.value).Ok? then Some(AsTextPart(raw.value).value)
    else None
  }

  function ThinkOf(raw: Option<Json>): Option<ThinkPart> {
    if raw.None? then None
    else if AsString(raw.value).Ok? then Some(ThinkPart(AsString(raw.value).value, ""))
    else if AsThinkPart(raw.value).Ok? then Some(AsThinkPart(raw.value).value)
    else None
  }

  function ParsePart(j: Json): Result<ContentPart> {
    var o :- AsMembers(j);
    var kind :- AsString(Get(o, Type));
    var image :- AsMedia(Get(o, ImageUrl), ImageUrl);
    var audio :- AsMedia(Get(o, AudioUrl), AudioUrl);
    var video :- AsMedia(Get(o, VideoUrl), VideoUrl);
    Ok(ContentPart(kind, TextOf(GetRaw(o, Text)), ThinkOf(GetRaw(o, Think)), image, audio, video))
  }

  // What is left of a part on the wire: a text or think part keeps its own field only, which becomes
  // empty if it was missing; the flat form has no place to read encrypted from.
  function NormalPart(cp: ContentPart): ContentPart {
    if cp.kind == TEXT then
      ZERO_PART.(kind := TEXT, text := Some(TextPart(if cp.text.Some? then cp.text.value.text else "")))
    else if cp.kind == THINK then
      ZERO_PART.(kind := THINK, think := Some(ThinkPart(if cp.think.Some? then cp.think.value.think else "", "")))
    else cp
  }

  lemma MediaRoundTrip(p: Option<MediaPart>, k: Key)
    ensures var j := MarshalMedia(p, k);
            AsMedia(if j.Some? then j.value else Null, k) == Ok(p)
  {
  }

  lemma TextRoundTrip(p: Option<TextPart>)
    ensures TextOf(MarshalText(p)) == p
  {
  }

  lemma ThinkRoundTrip(p: Option<ThinkPart>)
    ensures ThinkOf(MarshalThink(p)) == p
  {
  }

  lemma NestedMembers(cp: ContentPart)
    ensures var o := MarshalNested(cp);
            && Get(o, Type) == Str(cp.kind)
            && GetRaw(o, Text) == MarshalText(cp.text)
            && GetRaw(o, Think) == MarshalThink(cp.think)
            && GetRaw(o, ImageUrl) == MarshalMedia(cp.imageURL, ImageUrl)
            && GetRaw(o, AudioUrl) == MarshalMedia(cp.audioURL, AudioUrl)
            && GetRaw(o, VideoUrl) == MarshalMedia(cp.videoURL, VideoUrl)
  {
  }

  lemma {:induction false} PartRoundTrip(cp: ContentPart)
    ensures ParsePart(MarshalPart(cp)) == Ok(NormalPart(cp))
  {
    if cp.kind != TEXT && cp.kind != THINK {
      NestedMembers(cp);
      MediaRoundTrip(cp.imageURL, ImageUrl);
      MediaRoundTrip(cp.audioURL, AudioUrl);
      MediaRoundTrip(cp.videoURL, VideoUrl);
      TextRoundTrip(cp.text);
      ThinkRoundTrip(cp.think);
    }
  }

  // Whatever the other members are, a text or thought is read alike from its flat and its nested form, and
  // a null as the empty string.
  lemma FlatOrNested(o: Members, s: string)
    ensures ParsePart(Obj(o[Text := Str(s)])) == ParsePart(Obj(o[Text := Obj(map[Text := Str(s)])]))
    ensures ParsePart(Obj(o[Text := Null])) == ParsePart(Obj(o[Text := Str("")]))
    ensures ParsePart(Obj(o[Think := Str(s)])) == ParsePart(Obj(o[Think := Obj(map[Think := Str(s)])]))
    ensures ParsePart(Obj(o[Think := Null])) == ParsePart(Obj(o[Think := Str("")]))
  {
    TextAlike(o, Str(s), Obj(map[Text := Str(s)]));
    TextAlike(o, Null, Str(""));
    ThinkAlike(o, Str(s), Obj(map[Think := Str(s)]));
    ThinkAlike(o, Null, Str(""));
  }

  // A member text or think is passed over, as if it were missing, exactly when it is neither a string nor
  // null nor an object that can be read.
  lemma PassedOverExactly(o: Members, j: Json)
    ensures TextOf(Some(j)).None? <==> AsString(j).Err? && AsTextPart(j).Err?
    ensures ThinkOf(Some(j)).None? <==> AsString(j).Err? && AsThinkPart(j).Err?
    ensures TextOf(Some(j)).None? ==> ParsePart(Obj(o[Text := j])) == ParsePart(Obj(o - {Text}))
    ensures ThinkOf(Some(j)).None? ==> ParsePart(Obj(o[Think := j])) == ParsePart(Obj(o - {Think}))
  {
    if TextOf(Some(j)).None? {
      SameButText(o[Text := j], o - {Text});
    }
    if ThinkOf(Some(j)).None? {
      SameButText(o[Think := j], o - {Think});
    }
  }

  lemma TextAlike(o: Members, a: Json, b: Json)
    requires TextOf(Some(a)) == TextOf(Some(b))
    ensures ParsePart(Obj(o[Text := a])) == ParsePart(Obj(o[Text := b]))
  {
    SameButText(o[Text := a], o[Text := b]);
  }

  lemma ThinkAlike(o: Members, a: Json, b: Json)
    requires ThinkOf(Some(a)) == ThinkOf(Some(b))
    ensures ParsePart(Obj(o[Think := a])) == ParsePart(Obj(o[Think := b]))
  {
    SameButText(o[Think := a], o[Think := b]);
  }

  lemma SameButText(o: Members, p: Members)
    requires Get(o, Type) == Get(p, Type) && Get(o, ImageUrl) == Get(p, ImageUrl)
    requires Get(o, AudioUrl) == Get(p, AudioUrl) && Get(o, VideoUrl) == Get(p, VideoUrl)
    requires TextOf(GetRaw(o, Text)) == TextOf(GetRaw(p, Text))
    requires ThinkOf(GetRaw(o, Think)) == ThinkOf(GetRaw(p, Think))
    ensures ParsePart(Obj(o)) == ParsePart(Obj(p))
  {
    assert AsMembers(Obj(o)) == Ok(o) && AsMembers(Obj(p)) == Ok(p);
  }

  // ---------------------------------------------------------------------------------------------
  // UserInput and ToolOutput
  // ---------------------------------------------------------------------------------------------

  predicate Ambiguous(c: Content) {
    c.text != "" && c.parts != []
  }

  function MarshalContent(c: Content): Result<Json> {
    if Ambiguous(c) then Err
    else if c.text != "" then Ok(Str(c.text))
    else if c.parts != [] then Ok(Arr(MarshalAll(c.parts, MarshalPart)))
    else Ok(Str(""))
  }

  // A string or an array; null and everything else is refused.
  function ParseContent(j: Json): Result<Content> {
    match j
    case Str(s) => Ok(TextOrParts(s, []))
    case Arr(items) =>
      var parts :- ParseAll(items, ParsePart);
      Ok(TextOrParts("", parts))
    case _ => Err
  }

  // A missing member leaves the field at its zero value; the parser is not called.
  function GetContent(o: Members, k: Key): Result<Content> {
    if k in o then ParseContent(o[k]) else Ok(TextOrParts("", []))
  }

  function NormalContent(c: Content): Content {
    TextOrParts(c.text, Map(c.parts, NormalPart))
  }

  lemma {:induction false} PartsRoundTrip(ps: seq<ContentPart>)
    ensures ParseAll(MarshalAll(ps, MarshalPart), ParsePart) == Ok(Map(ps, NormalPart))
  {
    forall cp ensures ParsePart(MarshalPart(cp)) == Ok(NormalPart(cp)) {
      PartRoundTrip(cp);
    }
    AllRoundTrip(ps, MarshalPart, ParsePart, NormalPart);
  }

  lemma {:induction false} ContentRoundTrip(c: Content)
    ensures MarshalContent(c).Err? <==> Ambiguous(c)
    ensures MarshalContent(c).Ok? ==> ParseContent(MarshalContent(c).value) == Ok(NormalContent(c))
  {
    PartsRoundTrip(c.parts);
  }

  // What can be read: a string, or an array each of whose elements is a readable part. Null cannot.
  lemma {:induction false} ReadableExactly(j: Json)
    ensures ParseContent(j).Ok? <==> j.Str? || (j.Arr? && forall i | 0 <= i < |j.items| :: ParsePart(j.items[i]).Ok?)
  {
    if j.Arr? {
      AllReadable(j.items, ParsePart);
    }
  }

  // ---------------------------------------------------------------------------------------------
  // Normal forms
  // ---------------------------------------------------------------------------------------------

  // The part has the fields its kind allows on the wire and nothing else.
  predicate IsNormalPart(cp: ContentPart) {
    && (cp.kind == TEXT ==>
          cp.text.Some? && cp.think.None? && cp.imageURL.None? && cp.audioURL.None? && cp.videoURL.None?)
    && (cp.kind == THINK ==>
          && cp.think.Some? && cp.think.value.encrypted == ""
          && cp.text.None? && cp.imageURL.None? && cp.audioURL.None? && cp.videoURL.None?)
  }

  predicate IsNormalContent(c: Content) {
    forall i | 0 <= i < |c.parts| :: IsNormalPart(c.parts[i])
  }

  lemma NormalPartExactly(cp: ContentPart)
    ensures IsNormalPart(NormalPart(cp))
    ensures NormalPart(cp) == cp <==> IsNormalPart(cp)
  {
  }

  lemma NormalContentExactly(c: Content)
    ensures IsNormalContent(NormalContent(c))
    ensures NormalContent(c) == c <==> IsNormalContent(c)
  {
    var ns := Map(c.parts, NormalPart);
    forall i | 0 <= i < |ns| ensures IsNormalPart(ns[i]) && (ns[i] == c.parts[i] <==> IsNormalPart(c.parts[i])) {
      NormalPartExactly(c.parts[i]);
    }
    if IsNormalContent(c) {
      assert forall i | 0 <= i < |ns| :: ns[i] == c.parts[i];
      assert ns == c.parts;
    } else {
      var i :| 0 <= i < |c.parts| && !IsNormalPart(c.parts[i]);
      assert ns[i] != c.parts[i];
    }
  }

  // ---------------------------------------------------------------------------------------------
  // The receivers
  // ---------------------------------------------------------------------------------------------

  // UnmarshalJSON fills the part it is called on: all of it or, on an error, nothing.
  class PartReceiver {
    var cp: ContentPart

    constructor (cp: ContentPart)
      ensures this.cp == cp
    {
      this.cp := cp;
    }

    method UnmarshalJSON(j: Json) returns (ok: bool)
      modifies this
      ensures ok == ParsePart(j).Ok?
      ensures cp == if ok then ParsePart(j).value else old(cp)
    {
      var o := AsMembers(j);
      if o.Err? {
        return false;
      }
      var kind, image := AsString(Get(o.value, Type)), AsMedia(Get(o.value, ImageUrl), ImageUrl);
      var audio, video := AsMedia(Get(o.value, AudioUrl), AudioUrl), AsMedia(Get(o.value, VideoUrl), VideoUrl);
      if kind.Err? || image.Err? || audio.Err? || video.Err? {
        return false;
      }
      cp := ContentPart(kind.value, None, None, image.value, audio.value, video.value);
      var auxText, auxThink := GetRaw(o.value, Text), GetRaw(o.value, Think);
      if auxText.Some? {
        var s := AsString(auxText.value);
        if s.Ok? {
          cp := cp.(text := Some(TextPart(s.value)));
        } else {
          var tp := AsTextPart(auxText.value);
          if tp.Ok? {
            cp := cp.(text := Some(tp.value));
          }
        }
      }
      if auxThink.Some? {
        var s := AsString(auxThink.value);
        if s.Ok? {
          cp := cp.(think := Some(ThinkPart(s.value, "")));
        } else {
          var tp := AsThinkPart(auxThink.value);
          if tp.Ok? {
            cp := cp.(think := Some(tp.value));
          }
        }
      }
      return true;
    }
  }

  // UnmarshalJSON empties the receiver first: nothing of an earlier value is left, whether it succeeds or
  // not. After an error inside an array the parts read so far are still there.
  class ContentReceiver {
    var text: string
    var parts: seq<ContentPart>

    constructor (c: Content)
      ensures text == c.text && parts == c.parts
    {
      text, parts := c.text, c.parts;
    }

    method UnmarshalJSON(j: Json) returns (ok: bool)
      modifies this
      ensures ok == ParseContent(j).Ok?
      ensures ok ==> TextOrParts(text, parts) == ParseContent(j).value
      ensures !ok ==> text == "" && (!j.Arr? ==> parts == [])
    {
      text, parts := "", [];
      match j
      case Str(s) =>
        text := s;
        return true;
      case Arr(items) =>
        ok := UnmarshalArray(items);
      case _ => return false;
    }

    method UnmarshalArray(items: seq<Json>) returns (ok: bool)
      requires text == "" && parts == []
      modifies this`parts
      ensures ok == ParseAll(items, ParsePart).Ok?
      ensures ok ==> parts == ParseAll(items, ParsePart).value
    {
      var i := 0;
      assert items[0..] == items;
      assert ParseAll(items, ParsePart).Ok?
          ==> [] + ParseAll(items, ParsePart).value == ParseAll(items, ParsePart).value;
      while i < |items|
        invariant i <= |items|
        invariant var rest := ParseAll(items[i..], ParsePart);
                  ParseAll(items, ParsePart) == if rest.Ok? then Ok(parts + rest.value) else Err
      {
        assert items[i..][1..] == items[i + 1..];
        var part := ParsePart(items[i]);
        if part.Err? {
          return false;
        }
        ghost var rest := ParseAll(items[i + 1..], ParsePart);
        assert rest.Ok? ==> parts + ([part.value] + rest.value) == parts + [part.value] + rest.value;
        parts := parts + [part.value];
        i := i + 1;
      }
      return true;
    }
  }
}
