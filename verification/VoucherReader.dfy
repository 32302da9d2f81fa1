/** Reading canonical voucher bytes back: what they say is determined by what they are. */
module VoucherReader {
  import opened Options
  import opened VoucherCanonical

  /** A signed value: a quoted text, or a bare number as it is written. */
  datatype Item = Text(text: string) | Bare(number: string)

  datatype SignedTag = SignedTag(key: string, items: seq<Item>)

  /** What a canonical rendering says. */
  datatype Content = Content(kind: string, data: string, nonce: string, tags: seq<SignedTag>)

  function ItemOf(schema: Schema, key: string, value: string): Item {
    if schema.numeric(key) then Bare(schema.render(value)) else Text(value)
  }

  function ItemsOf(schema: Schema, key: string, values: seq<string>): seq<Item> {
    if values == [] then [] else [ItemOf(schema, key, values[0])] + ItemsOf(schema, key, values[1..])
  }

  function TagOf(schema: Schema, tag: seq<string>): SignedTag {
    SignedTag(Key(tag), ItemsOf(schema, Key(tag), Values(tag)))
  }

  function TagsOf(schema: Schema, tags: seq<seq<string>>): seq<SignedTag> {
    if tags == [] then [] else [TagOf(schema, tags[0])] + TagsOf(schema, tags[1..])
  }

  /** Kind, data, nonce and the ordered signed tags, numbers as they are written. */
  function ContentOf(schema: Schema, s: Secret): Content {
    Content(KindText(s.kind), s.data, OrEmpty(s.nonce), TagsOf(schema, SignedTags(schema, s.tags)))
  }

  // ----------------------------------------------------------------------- the reader

  /** The text before the first quote, and what follows that quote. */
  function ReadRaw(s: string): (r: Option<(string, string)>)
    ensures r.Some? ==> |r.value.1| < |s|
  {
    if s == [] then None
    else if s[0] == '"' then Some(([], s[1..]))
    else
      var more := ReadRaw(s[1..]);
      if more.None? then None else Some(([s[0]] + more.value.0, more.value.1))
  }

  function ReadBare(s: string): (r: (string, string))
    ensures |r.0| + |r.1| == |s|
  {
    if s == [] || !NumberChar(s[0]) then ([], s)
    else
      var more := ReadBare(s[1..]);
      ([s[0]] + more.0, more.1)
  }

  function ReadItem(s: string): (r: Option<(Item, string)>)
    ensures r.Some? ==> |r.value.1| < |s|
  {
    if s != [] && s[0] == '"' then
      var text := ReadText(s[1..]);
      if text.None? then None else Some((Text(text.value.0), text.value.1))
    else
      var bare := ReadBare(s);
      if bare.0 == [] then None else Some((Bare(bare.0), bare.1))
  }

  /** Items, each after a comma, up to a closing bracket. */
  function ReadItems(s: string): (r: Option<(seq<Item>, string)>)
    ensures r.Some? ==> |r.value.1| < |s|
    decreases |s|
  {
    if s == [] then None
    else if s[0] == ']' then Some(([], s[1..]))
    else if s[0] != ',' then None
    else
      var first := ReadItem(s[1..]);
      if first.None? then None
      else
        var more := ReadItems(first.value.1);
        if more.None? then None else Some(([first.value.0] + more.value.0, more.value.1))
  }

  function ReadTag(s: string): (r: Option<(SignedTag, string)>)
    ensures r.Some? ==> |r.value.1| < |s|
  {
    if |s| < 2 || s[0] != '[' || s[1] != '"' then None
    else
      var key := ReadText(s[2..]);
      if key.None? then None
      else
        var items := ReadItems(key.value.1);
        if items.None? then None else Some((SignedTag(key.value.0, items.value.0), items.value.1))
  }

  /** Tags up to the closing bracket, a comma between two of them. */
  function ReadTags(s: string): Option<(seq<SignedTag>, string)>
    decreases |s|
  {
    if s == [] then None
    else if s[0] == ']' then Some(([], s[1..]))
    else
      var first := ReadTag(s);
      if first.None? || first.value.1 == [] then None
      else if first.value.1[0] == ']' then Some(([first.value.0], first.value.1[1..]))
      else if first.value.1[0] != ',' then None
      else
        var more := ReadTags(first.value.1[1..]);
        if more.None? then None else Some(([first.value.0] + more.value.0, more.value.1))
  }

  function Skip(s: string, prefix: string): Option<string> {
    if prefix <= s then Some(s[|prefix|..]) else None
  }

  /** A quoted raw text and the separator after it. */
  function ReadField(s: string, separator: string): Option<(string, string)> {
    var text := ReadRaw(s);
    if text.None? then None
    else
      var rest := Skip(text.value.1, separator);
      if rest.None? then None else Some((text.value.0, rest.value))
  }

  function Read(s: string): Option<Content> {
    var start := Skip(s, "[\"");
    if start.None? then None
    else
      var kind := ReadField(start.value, ",\"");
      if kind.None? then None
      else
        var data := ReadField(kind.value.1, ",\"");
        if data.None? then None
        else
          var nonce := ReadField(data.value.1, ",[");
          if nonce.None? then None
          else
            var tags := ReadTags(nonce.value.1);
            if tags.None? || tags.value.1 != "]" then None
            else Some(Content(kind.value.0, data.value.0, nonce.value.0, tags.value.0))
  }

  // ----------------------------------------------------------------------- round trip

  predicate QuoteFree(s: string) {
    forall i | 0 <= i < |s| :: s[i] != '"'
  }

  lemma {:induction false} ReadRawOf(t: string, rest: string)
    requires QuoteFree(t)
    ensures ReadRaw(t + ("\"" + rest)) == Some((t, rest))
  {
    var s := t + ("\"" + rest);
    if t == [] {
      assert s == "\"" + rest && s[1..] == rest;
    } else {
      ReadRawOf(t[1..], rest);
      assert s[1..] == t[1..] + ("\"" + rest);
      assert t == [t[0]] + t[1..];
    }
  }

  lemma {:induction false} ReadBareOf(t: string, rest: string)
    requires (forall i | 0 <= i < |t| :: NumberChar(t[i])) && rest != [] && !NumberChar(rest[0])
    ensures ReadBare(t + rest) == (t, rest)
  {
    if t == [] {
      assert t + rest == rest;
    } else {
      ReadBareOf(t[1..], rest);
      assert (t + rest)[1..] == t[1..] + rest;
      assert t == [t[0]] + t[1..];
    }
  }

  /** A rendered value reads back when a comma or a bracket follows it. */
  lemma ReadItemOf(schema: Schema, key: string, value: string, rest: string)
    requires Lawful(schema) && rest != [] && (rest[0] == ',' || rest[0] == ']')
    ensures ReadItem(RenderValue(schema, key, value) + rest) == Some((ItemOf(schema, key, value), rest))
  {
    if schema.numeric(key) {
      assert RendersWell(schema, value);
      var t := schema.render(value);
      ReadBareOf(t, rest);
      assert (t + rest)[0] == t[0];
    } else {
      var s := RenderValue(schema, key, value) + rest;
      assert s[1..] == Escape(value) + "\"" + rest;
      ReadEscaped(value, rest);
    }
  }

  lemma {:induction false} ReadItemsOf(schema: Schema, key: string, values: seq<string>, rest: string)
    requires Lawful(schema)
    ensures ReadItems(RenderValues(schema, key, values) + ("]" + rest)) == Some((ItemsOf(schema, key, values), rest))
  {
    if values == [] {
      assert RenderValues(schema, key, values) + ("]" + rest) == "]" + rest && ("]" + rest)[1..] == rest;
    } else {
      var tail := RenderValues(schema, key, values[1..]) + ("]" + rest);
      FirstOfValues(schema, key, values[1..], rest);
      ReadItemOf(schema, key, values[0], tail);
      ReadItemsOf(schema, key, values[1..], rest);
      var own := RenderValue(schema, key, values[0]);
      JoinValues(own, RenderValues(schema, key, values[1..]), rest);
      ReadFirstItem(own, ItemOf(schema, key, values[0]), tail, ItemsOf(schema, key, values[1..]), rest);
    }
  }

  lemma JoinValues(own: string, others: string, rest: string)
    ensures ("," + own + others) + ("]" + rest) == "," + (own + (others + ("]" + rest)))
  {
  }

  lemma ReadFirstItem(own: string, item: Item, tail: string, items: seq<Item>, rest: string)
    requires ReadItem(own + tail) == Some((item, tail)) && ReadItems(tail) == Some((items, rest))
    ensures ReadItems("," + (own + tail)) == Some(([item] + items, rest))
  {
    assert ("," + (own + tail))[1..] == own + tail;
  }

  lemma FirstOfValues(schema: Schema, key: string, values: seq<string>, rest: string)
    ensures var s := RenderValues(schema, key, values) + ("]" + rest); s[0] == if values == [] then ']' else ','
  {
  }

  /** A quoted key and its items, by any texts that read back. */
  lemma ReadTagParts(key: string, values: string, items: seq<Item>, rest: string)
    requires ReadItems(values + ("]" + rest)) == Some((items, rest))
    ensures ReadTag(("[\"" + Escape(key) + "\"" + values + "]") + rest) == Some((SignedTag(key, items), rest))
  {
    TagText(Escape(key), values, rest);
    ReadEscaped(key, values + ("]" + rest));
  }

  lemma TagText(key: string, values: string, rest: string)
    ensures var s := ("[\"" + key + "\"" + values + "]") + rest;
            |s| >= 2 && s[0] == '[' && s[1] == '"' && s[2..] == key + "\"" + (values + ("]" + rest))
  {
  }

  lemma ReadTagOf(schema: Schema, tag: seq<string>, rest: string)
    requires Lawful(schema)
    ensures ReadTag(RenderTag(schema, tag) + rest) == Some((TagOf(schema, tag), rest))
  {
    ReadItemsOf(schema, Key(tag), Values(tag), rest);
    ReadTagParts(Key(tag), RenderValues(schema, Key(tag), Values(tag)), ItemsOf(schema, Key(tag), Values(tag)), rest);
  }

  /** The first of several tags, given that it and those after it read back. */
  lemma ReadFirstTag(first: string, tag: SignedTag, last: bool, more: string, tags: seq<SignedTag>, rest: string)
    requires first != "" && first[0] == '['
    requires ReadTag(first + (if last then "]" + rest else "," + more)) == Some((tag, if last then "]" + rest else "," + more))
    requires !last ==> ReadTags(more) == Some((tags, rest))
    ensures ReadTags(first + (if last then "]" + rest else "," + more)) == Some(([tag] + (if last then [] else tags), rest))
  {
    var tail := if last then "]" + rest else "," + more;
    assert tail[1..] == if last then rest else more;
    assert [tag] + [] == [tag];
  }

  lemma {:induction false} ReadTagsOf(schema: Schema, tags: seq<seq<string>>, rest: string)
    requires Lawful(schema)
    ensures ReadTags(RenderTags(schema, tags) + ("]" + rest)) == Some((TagsOf(schema, tags), rest))
  {
    if tags == [] {
      assert RenderTags(schema, tags) + ("]" + rest) == "]" + rest && ("]" + rest)[1..] == rest;
    } else {
      var first, last := RenderTag(schema, tags[0]), |tags| == 1;
      var more := RenderTags(schema, tags[1..]) + ("]" + rest);
      var tail := if last then "]" + rest else "," + more;
      JoinTags(first, last, RenderTags(schema, tags[1..]), rest);
      assert last ==> RenderTags(schema, tags[1..]) == [] && TagsOf(schema, tags[1..]) == [];
      ReadTagOf(schema, tags[0], tail);
      ReadTagsOf(schema, tags[1..], rest);
      ReadFirstTag(first, TagOf(schema, tags[0]), last, more, TagsOf(schema, tags[1..]), rest);
    }
  }

  lemma JoinTags(first: string, last: bool, others: string, rest: string)
    requires last ==> others == ""
    ensures (first + (if last then [] else ",") + others) + ("]" + rest) == first + if last then "]" + rest else "," + (others + ("]" + rest))
  {
    assert last ==> first + [] + others == first;
  }

  lemma ReadFieldOf(t: string, separator: string, rest: string)
    requires QuoteFree(t)
    ensures ReadField(t + ("\"" + (separator + rest)), separator) == Some((t, rest))
  {
    ReadRawOf(t, separator + rest);
    assert (separator + rest)[|separator|..] == rest;
  }

  /** The rendering, grouped the way it is read. */
  lemma RenderGrouped(schema: Schema, s: Secret)
    ensures Render(schema, s) ==
            "[\"" + (KindText(s.kind) + ("\"" + (",\"" + (s.data + ("\"" + (",\"" + (OrEmpty(s.nonce) + ("\"" + (",["
            + (RenderTags(schema, SignedTags(schema, s.tags)) + ("]" + "]")))))))))))
  {
    Grouped(KindText(s.kind), s.data, OrEmpty(s.nonce), RenderTags(schema, SignedTags(schema, s.tags)));
  }

  lemma Grouped(kind: string, data: string, nonce: string, tags: string)
    ensures "[\"" + kind + "\",\"" + data + "\",\"" + nonce + "\",[" + tags + "]]" ==
            "[\"" + (kind + ("\"" + (",\"" + (data + ("\"" + (",\"" + (nonce + ("\"" + (",[" + (tags + ("]" + "]")))))))))))
  {
    var end := tags + ("]" + "]");
    assert end == tags + "]]";
    var afterNonce := nonce + ("\"" + (",[" + end));
    assert afterNonce == nonce + "\",[" + tags + "]]";
    var afterData := data + ("\"" + (",\"" + afterNonce));
    assert afterData == data + "\",\"" + nonce + "\",[" + tags + "]]";
  }

  /** The issuer's bytes can be read back: they give kind, data, nonce and every signed tag in order. */
  lemma ReadOfRender(schema: Schema, s: Secret)
    requires Lawful(schema) && QuoteFree(s.data) && QuoteFree(OrEmpty(s.nonce))
    ensures Read(Render(schema, s)) == Some(ContentOf(schema, s))
  {
    var signed := SignedTags(schema, s.tags);
    RenderGrouped(schema, s);
    ReadTagsOf(schema, signed, "]");
    ReadFields(KindText(s.kind), s.data, OrEmpty(s.nonce), RenderTags(schema, signed) + ("]" + "]"), TagsOf(schema, signed));
  }

  lemma ReadFields(kind: string, data: string, nonce: string, end: string, tags: seq<SignedTag>)
    requires QuoteFree(kind) && QuoteFree(data) && QuoteFree(nonce) && ReadTags(end) == Some((tags, "]"))
    ensures Read("[\"" + (kind + ("\"" + (",\"" + (data + ("\"" + (",\"" + (nonce + ("\"" + (",[" + end)))))))))) ==
            Some(Content(kind, data, nonce, tags))
  {
    var afterNonce := nonce + ("\"" + (",[" + end));
    var afterData := data + ("\"" + (",\"" + afterNonce));
    var afterKind := kind + ("\"" + (",\"" + afterData));
    assert ("[\"" + afterKind)[2..] == afterKind;
    ReadFieldOf(kind, ",\"", afterData);
    ReadFieldOf(data, ",\"", afterNonce);
    ReadFieldOf(nonce, ",[", end);
  }

  // -------------------------------------------------------- the rendering as a writer

  function WriteItem(item: Item): string {
    match item
    case Text(text) => "\"" + Escape(text) + "\""
    case Bare(number) => number
  }

  function WriteItems(items: seq<Item>): string {
    if items == [] then [] else "," + WriteItem(items[0]) + WriteItems(items[1..])
  }

  function WriteTags(tags: seq<SignedTag>): string {
    if tags == [] then []
    else "[\"" + Escape(tags[0].key) + "\"" + WriteItems(tags[0].items) + "]"
         + (if |tags| == 1 then [] else ",") + WriteTags(tags[1..])
  }

  function Write(c: Content): string {
    "[\"" + c.kind + "\",\"" + c.data + "\",\"" + c.nonce + "\",[" + WriteTags(c.tags) + "]]"
  }

  lemma {:induction false} WriteItemsOf(schema: Schema, key: string, values: seq<string>)
    ensures WriteItems(ItemsOf(schema, key, values)) == RenderValues(schema, key, values)
  {
    if values != [] {
      WriteItemsOf(schema, key, values[1..]);
      assert ItemsOf(schema, key, values)[1..] == ItemsOf(schema, key, values[1..]);
    }
  }

  lemma {:induction false} WriteTagsOf(schema: Schema, tags: seq<seq<string>>)
    ensures |TagsOf(schema, tags)| == |tags|
    ensures WriteTags(TagsOf(schema, tags)) == RenderTags(schema, tags)
  {
    if tags != [] {
      WriteTagsOf(schema, tags[1..]);
      WriteItemsOf(schema, Key(tags[0]), Values(tags[0]));
      assert TagsOf(schema, tags)[1..] == TagsOf(schema, tags[1..]);
    }
  }

  /** The rendering depends on nothing but the content. */
  lemma RenderWritesContent(schema: Schema, s: Secret)
    ensures Render(schema, s) == Write(ContentOf(schema, s))
  {
    WriteTagsOf(schema, SignedTags(schema, s.tags));
  }
}
