/**
 * A scan of the text of a rendering's tags that follows its quotes. It rejects what no rendering
 * holds, and two scans that disagree on where the quotes open disagree to the end.
 */
module VoucherScan {
  import opened Options
  import opened VoucherCanonical

  /** What stands between the nonce and the tags. */
  const OPENS_TAGS := "\",["

  // ------------------------------------------------------------ reading the tags' text

  /** Where a scan of the tags' text stands: outside or inside the quotes, or just behind one. */
  datatype Place = Out | Closed | ClosedComma | In | Escaped

  predicate Outside(p: Place) {
    p.Out? || p.Closed? || p.ClosedComma?
  }

  /** One character; `None` where no rendering can stand: a backslash outside quotes, or a bracket behind a closing quote and a comma. */
  function Step(p: Place, c: char): Option<Place> {
    match p
    case In => Some(if c == '"' then Closed else if c == '\\' then Escaped else In)
    case Escaped => Some(In)
    case _ =>
      if c == '\\' || (p.ClosedComma? && c == '[') then None
      else if c == '"' then Some(In)
      else if p.Closed? && c == ',' then Some(ClosedComma)
      else Some(Out)
  }

  function Scan(p: Place, s: string): Option<Place>
    decreases |s|
  {
    if s == [] then Some(p)
    else
      var next := Step(p, s[0]);
      if next.None? then None else Scan(next.value, s[1..])
  }

  lemma {:induction false} ScanJoin(p: Place, s: string, t: string)
    ensures Scan(p, s + t) == var q := Scan(p, s); if q.None? then None else Scan(q.value, t)
    decreases |s|
  {
    if s == [] {
      assert s + t == t;
    } else {
      assert (s + t)[1..] == s[1..] + t;
      var next := Step(p, s[0]);
      if next.Some? {
        ScanJoin(next.value, s[1..], t);
      }
    }
  }

  lemma ScanOne(p: Place, c: char)
    ensures Scan(p, [c]) == Step(p, c)
  {
    assert [c][1..] == [];
  }

  /** Text without quotes or backslashes stays inside. */
  lemma {:induction false} ScanPlain(s: string)
    requires forall i | 0 <= i < |s| :: s[i] != '"' && s[i] != '\\'
    ensures Scan(In, s) == Some(In)
  {
    if s != [] {
      ScanPlain(s[1..]);
    }
  }

  lemma ScanEscapedChar(c: char)
    ensures Scan(In, EscapeChar(c)) == Some(In)
  {
    var e := EscapeChar(c);
    if e[0] == '\\' {
      assert e == ['\\', e[1]] + e[2..];
      ScanJoin(In, ['\\', e[1]], e[2..]);
      ScanJoin(In, ['\\'], [e[1]]);
      assert ['\\'] + [e[1]] == ['\\', e[1]];
      ScanOne(In, '\\');
      ScanOne(Escaped, e[1]);
      ScanPlain(e[2..]);
    } else {
      ScanPlain(e);
    }
  }

  lemma {:induction false} ScanEscape(s: string)
    ensures Scan(In, Escape(s)) == Some(In)
  {
    if s != [] {
      ScanEscapedChar(s[0]);
      ScanEscape(s[1..]);
      ScanJoin(In, EscapeChar(s[0]), Escape(s[1..]));
    }
  }

  lemma ScanQuoted(p: Place, s: string)
    requires Outside(p)
    ensures Scan(p, "\"" + Escape(s) + "\"") == Some(Closed)
  {
    ScanEscape(s);
    ScanOne(p, '"');
    ScanOne(In, '"');
    ScanJoin(p, "\"", Escape(s));
    ScanJoin(p, "\"" + Escape(s), "\"");
  }

  lemma {:induction false} ScanNumber(p: Place, s: string)
    requires (p.Out? || p.ClosedComma?) && NumberText(s)
    ensures Scan(p, s) == Some(Out)
    decreases |s|
  {
    if |s| > 1 {
      ScanNumber(Out, s[1..]);
    } else {
      assert s[1..] == [];
    }
  }

  /** After a value: behind its closing quote, or behind a number. */
  predicate AfterValue(p: Option<Place>) {
    p == Some(Closed) || p == Some(Out)
  }

  lemma {:induction false} ScanValues(schema: Schema, key: string, values: seq<string>, p: Place)
    requires Lawful(schema) && AfterValue(Some(p))
    ensures AfterValue(Scan(p, RenderValues(schema, key, values)))
  {
    if values != [] {
      var value, rest := RenderValue(schema, key, values[0]), RenderValues(schema, key, values[1..]);
      ScanOne(p, ',');
      var q := Step(p, ',').value;
      assert RendersWell(schema, values[0]);
      if schema.numeric(key) {
        ScanNumber(q, value);
      } else {
        ScanQuoted(q, values[0]);
      }
      ScanJoin(p, ",", value);
      ScanJoin(p, "," + value, rest);
      ScanValues(schema, key, values[1..], Scan(q, value).value);
    }
  }

  lemma ScanTagParts(key: string, values: string)
    requires AfterValue(Scan(Closed, values))
    ensures Scan(Out, "[" + ("\"" + Escape(key) + "\"") + values + "]") == Some(Out)
  {
    var quoted := "\"" + Escape(key) + "\"";
    ScanOne(Out, '[');
    ScanQuoted(Out, key);
    ScanJoin(Out, "[", quoted);
    ScanJoin(Out, "[" + quoted, values);
    ScanJoin(Out, "[" + quoted + values, "]");
    ScanOne(Scan(Closed, values).value, ']');
  }

  lemma TagParts(key: string, values: string)
    ensures "[\"" + key + "\"" + values + "]" == "[" + ("\"" + key + "\"") + values + "]"
  {
    assert "[\"" == "[" + "\"";
  }

  lemma ScanTag(schema: Schema, tag: seq<string>)
    requires Lawful(schema)
    ensures Scan(Out, RenderTag(schema, tag)) == Some(Out)
  {
    var values := RenderValues(schema, Key(tag), Values(tag));
    TagParts(Escape(Key(tag)), values);
    ScanValues(schema, Key(tag), Values(tag), Closed);
    ScanTagParts(Key(tag), values);
  }

  lemma {:induction false} ScanTags(schema: Schema, tags: seq<seq<string>>)
    requires Lawful(schema)
    ensures Scan(Out, RenderTags(schema, tags)) == Some(Out)
  {
    if tags != [] {
      var first, comma, rest := RenderTag(schema, tags[0]), if |tags| == 1 then [] else ",", RenderTags(schema, tags[1..]);
      ScanTag(schema, tags[0]);
      ScanTags(schema, tags[1..]);
      ScanOne(Out, ',');
      ScanJoin(Out, first, comma);
      ScanJoin(Out, first + comma, rest);
    }
  }

  /** What follows `,[` in a rendering. */
  function Ending(schema: Schema, s: Secret): string {
    RenderTags(schema, SignedTags(schema, s.tags)) + "]]"
  }

  predicate IsBracket(c: char) {
    c == '[' || c == ']'
  }

  lemma ScanEnding(schema: Schema, s: Secret)
    requires Lawful(schema)
    ensures Scan(Out, Ending(schema, s)) == Some(Out)
    ensures IsBracket(Ending(schema, s)[0])
  {
    ScanTags(schema, SignedTags(schema, s.tags));
    ScanJoin(Out, RenderTags(schema, SignedTags(schema, s.tags)), "]]");
    assert Scan(Out, "]]") == Some(Out) by {
      ScanOne(Out, ']');
      ScanJoin(Out, "]", "]");
      assert "]" + "]" == "]]";
    }
  }

  // ------------------------------------------------------------------ swapped quotes

  /** Two scans of one text that start on different sides of the quotes never meet. */
  lemma {:induction false} SwappedQuotes(p: Place, q: Place, s: string)
    requires (Outside(p) && q.In?) || (p.In? && Outside(q))
    requires Scan(p, s).Some? && Scan(q, s).Some?
    ensures Outside(Scan(p, s).value) != Outside(Scan(q, s).value)
    decreases |s|
  {
    if s != [] {
      SwappedQuotes(Step(p, s[0]).value, Step(q, s[0]).value, s[1..]);
    }
  }

  /** A text that scans from outside to outside cannot be read from inside a quoted text to its end. */
  lemma NoEndInside(q: Place, s: string)
    requires s != "" && IsBracket(s[0]) && (q.In? || q.Escaped?)
    requires Scan(Out, s) == Some(Out)
    ensures Scan(q, s) != Some(Out)
  {
    if Scan(q, s) == Some(Out) {
      SwappedQuotes(Step(Out, s[0]).value, In, s[1..]);
    }
  }

  lemma ThreeSteps(p: Place)
    ensures Scan(p, OPENS_TAGS).Some? ==> !Outside(Scan(p, OPENS_TAGS).value)
  {
    assert OPENS_TAGS == ['"'] + ([','] + ['[']);
    ScanJoin(p, ['"'], [','] + ['[']);
    ScanOne(p, '"');
    var q := Step(p, '"').value;
    ScanJoin(q, [','], ['[']);
    ScanOne(q, ',');
    ScanOne(Step(q, ',').value, '[');
  }

  /** No scan is outside the quotes where the tags of a rendering open. */
  lemma NeverOpensTags(p: string)
    requires |p| >= 3 && p[|p| - 3..] == OPENS_TAGS
    ensures Scan(Out, p).Some? ==> !Outside(Scan(Out, p).value)
  {
    var front := p[..|p| - 3];
    assert p == front + OPENS_TAGS;
    ScanJoin(Out, front, OPENS_TAGS);
    if Scan(Out, front).Some? {
      ThreeSteps(Scan(Out, front).value);
    }
  }
}
