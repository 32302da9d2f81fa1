/**
 * Whose bytes a voucher's canonical bytes are. Data and nonce are written unescaped, so the bytes do
 * not say where one ends and the other begins when the separator occurs in them; but that is all they
 * leave open. No secret can pass its fields off as another's tags, or its tags as another's fields:
 * the two would have to read the rest of the text with the quotes swapped.
 */
module VoucherBytes {
  import opened Options
  import opened VoucherCanonical
  import opened VoucherReader
  import opened VoucherScan
  import opened Hex
  import Utf8

  // ----------------------------------------------------------------- where the tags start

  /** The sequence that ends one field and opens the next. */
  const SEPARATOR := "\",\""

  /** The two raw fields as they stand in the rendering, from the first character of data on. */
  function Fields(s: Secret): string {
    s.data + SEPARATOR + OrEmpty(s.nonce)
  }

  /** What a rendering writes before the data. */
  function Start(kind: Kind): string {
    "[\"" + KindText(kind) + SEPARATOR
  }

  /** What a rendering writes before the tags. */
  function Head(s: Secret): string {
    Start(s.kind) + Fields(s) + OPENS_TAGS
  }

  lemma HeadAndEnding(schema: Schema, s: Secret)
    ensures Render(schema, s) == Head(s) + Ending(schema, s)
  {
    var tags := RenderTags(schema, SignedTags(schema, s.tags));
    assert Head(s) == Start(s.kind) + s.data + SEPARATOR + OrEmpty(s.nonce) + OPENS_TAGS;
    assert Render(schema, s) == Head(s) + tags + "]]";
  }

  /** A rendering whose tags start later in the text than those of another never has the same text. */
  lemma TagsDoNotStartLater(schema: Schema, a: Secret, b: Secret, between: string)
    requires Lawful(schema) && Head(b) == Head(a) + between && Ending(schema, a) == between + Ending(schema, b)
    ensures between == ""
  {
    if between == "" {
      return;
    }
    ScanEnding(schema, a);
    ScanEnding(schema, b);
    ScanJoin(Out, between, Ending(schema, b));
    BetweenEndsInside(a, b, between);
    NoEndInside(Scan(Out, between).value, Ending(schema, b));
  }

  lemma BetweenEndsInside(a: Secret, b: Secret, between: string)
    requires between != "" && Head(b) == Head(a) + between && Scan(Out, between).Some?
    ensures !Outside(Scan(Out, between).value)
  {
    var n, m := |Head(a)|, |Head(b)|;
    assert Head(b)[m - 3..] == OPENS_TAGS && Head(b)[m - 3] == '"' && Head(b)[m - 2] == ',';
    assert Head(a)[n - 2] == ',' && Head(a)[n - 1] == '[';
    assert |between| != 1 && |between| != 2;
    assert between[|between| - 3..] == Head(b)[m - 3..];
    NeverOpensTags(between);
  }

  lemma SameText(a: string, b: string, c: string, d: string)
    requires a + b == c + d
    ensures |a| == |c| ==> a == c && b == d
    ensures |a| < |c| ==> c == a + c[|a|..] && b == c[|a|..] + d
  {
    if |a| <= |c| {
      assert c == (a + b)[..|c|];
      assert a == (c + d)[..|a|];
      assert b == (c + d)[|a|..];
    }
  }

  lemma SameHeadAndEnding(schema: Schema, a: Secret, b: Secret)
    requires Lawful(schema) && Render(schema, a) == Render(schema, b)
    ensures Head(a) == Head(b) && Ending(schema, a) == Ending(schema, b)
  {
    var g, h := Head(a), Head(b);
    HeadAndEnding(schema, a);
    HeadAndEnding(schema, b);
    SameText(g, Ending(schema, a), h, Ending(schema, b));
    SameText(h, Ending(schema, b), g, Ending(schema, a));
    if |g| < |h| {
      TagsDoNotStartLater(schema, a, b, h[|g|..]);
    } else if |h| < |g| {
      TagsDoNotStartLater(schema, b, a, g[|h|..]);
    }
  }

  // --------------------------------------------------------------- what the bytes settle

  /** `voucherCanonicalBytes`. */
  function CanonicalBytes(schema: Schema, s: Secret): seq<byte> {
    Utf8.Encode(Render(schema, s))
  }

  lemma SameBytesSameText(schema: Schema, a: Secret, b: Secret)
    ensures CanonicalBytes(schema, a) == CanonicalBytes(schema, b) <==> Render(schema, a) == Render(schema, b)
  {
    if CanonicalBytes(schema, a) == CanonicalBytes(schema, b) {
      Utf8.EncodingIsInjective(Render(schema, a), Render(schema, b));
    }
  }

  lemma KindsDiffer(s: Secret)
    ensures |Head(s)| > 2 && (Head(s)[2] == 'V' <==> s.kind.Voucher?)
  {
  }

  lemma Between(head: string, a: string, b: string, tail: string)
    requires head + a + tail == head + b + tail
    ensures a == b
  {
    assert (head + a + tail)[|head|..|head| + |a|] == a;
    assert (head + b + tail)[|head|..|head| + |b|] == b;
  }

  lemma SameHeads(a: Secret, b: Secret)
    requires Head(a) == Head(b)
    ensures a.kind == b.kind && Fields(a) == Fields(b)
  {
    KindsDiffer(a);
    KindsDiffer(b);
    Between(Start(a.kind), Fields(a), Fields(b), OPENS_TAGS);
  }

  lemma SameEndings(schema: Schema, a: Secret, b: Secret)
    requires Lawful(schema) && Ending(schema, a) == Ending(schema, b)
    ensures TagsOf(schema, SignedTags(schema, a.tags)) == TagsOf(schema, SignedTags(schema, b.tags))
  {
    var s, t := SignedTags(schema, a.tags), SignedTags(schema, b.tags);
    assert "]" + "]" == "]]";
    ReadTagsOf(schema, s, "]");
    ReadTagsOf(schema, t, "]");
  }

  lemma SameTags(schema: Schema, a: Secret, b: Secret)
    requires TagsOf(schema, SignedTags(schema, a.tags)) == TagsOf(schema, SignedTags(schema, b.tags))
    ensures Ending(schema, a) == Ending(schema, b)
  {
    WriteTagsOf(schema, SignedTags(schema, a.tags));
    WriteTagsOf(schema, SignedTags(schema, b.tags));
  }

  /**
   * Any two secrets have the same bytes exactly when they have the same kind, the same signed tags,
   * and data and nonce that run together alike.
   */
  lemma BytesSettleAllButTheSplit(schema: Schema, a: Secret, b: Secret)
    requires Lawful(schema)
    ensures CanonicalBytes(schema, a) == CanonicalBytes(schema, b) <==>
            && a.kind == b.kind && Fields(a) == Fields(b)
            && TagsOf(schema, SignedTags(schema, a.tags)) == TagsOf(schema, SignedTags(schema, b.tags))
  {
    SameBytesSameText(schema, a, b);
    if Render(schema, a) == Render(schema, b) {
      SameHeadAndEnding(schema, a, b);
      SameHeads(a, b);
      SameEndings(schema, a, b);
    } else if TagsOf(schema, SignedTags(schema, a.tags)) == TagsOf(schema, SignedTags(schema, b.tags)) {
      HeadAndEnding(schema, a);
      HeadAndEnding(schema, b);
      SameTags(schema, a, b);
    }
  }

  // ---------------------------------------------------------------------- collisions

  /** `SEPARATOR` stands at place `i` of `s`. */
  predicate SeparatorAt(s: string, i: nat) {
    i + 3 <= |s| && s[i..i + 3] == SEPARATOR
  }

  /** The separator occurs in the two fields run together only where it was written between them. */
  ghost predicate SplitsOnce(s: Secret) {
    forall i: nat :: SeparatorAt(Fields(s), i) ==> i == |s.data|
  }

  /** Fields that run together alike are split at a separator, and at different places if they differ. */
  lemma SplitsDiffer(a: Secret, b: Secret)
    requires Fields(a) == Fields(b)
    ensures SeparatorAt(Fields(a), |b.data|)
    ensures |a.data| == |b.data| <==> a.data == b.data && OrEmpty(a.nonce) == OrEmpty(b.nonce)
  {
    var n := |b.data|;
    assert Fields(b)[n..n + 3] == SEPARATOR;
    assert Fields(a)[..|a.data|] == a.data && Fields(b)[..n] == b.data;
    assert Fields(a)[|a.data| + 3..] == OrEmpty(a.nonce) && Fields(b)[n + 3..] == OrEmpty(b.nonce);
  }

  /** Another secret that says something else, yet has the same bytes. */
  predicate Collides(schema: Schema, a: Secret, b: Secret) {
    CanonicalBytes(schema, b) == CanonicalBytes(schema, a) && ContentOf(schema, b) != ContentOf(schema, a)
  }

  lemma CollisionSplitsElsewhere(schema: Schema, a: Secret, b: Secret)
    requires Lawful(schema) && Collides(schema, a, b)
    ensures |b.data| != |a.data| && SeparatorAt(Fields(a), |b.data|)
  {
    BytesSettleAllButTheSplit(schema, a, b);
    SplitsDiffer(a, b);
  }

  /** The secret with these fields divided at `i`. */
  function SplitAt(a: Secret, i: nat): Secret
    requires SeparatorAt(Fields(a), i)
  {
    Secret(a.kind, Some(Fields(a)[i + 3..]), Fields(a)[..i], a.tags)
  }

  lemma OtherSplitCollides(schema: Schema, a: Secret, i: nat)
    requires i != |a.data| && SeparatorAt(Fields(a), i)
    ensures Collides(schema, a, SplitAt(a, i)) && |SplitAt(a, i).data| == i
  {
    var b := SplitAt(a, i);
    assert Fields(b) == Fields(a)[..i] + Fields(a)[i..i + 3] + Fields(a)[i + 3..] == Fields(a);
    HeadAndEnding(schema, a);
    HeadAndEnding(schema, b);
  }

  /**
   * The bytes say more than one thing exactly when the separator occurs elsewhere in the two fields run
   * together: then the secret divided there has them too, and otherwise no secret at all that says
   * something else has, whatever its fields and tags.
   */
  lemma UnescapedFieldsCollide(schema: Schema, a: Secret)
    requires Lawful(schema)
    ensures (exists b: Secret :: Collides(schema, a, b)) <==> (exists i: nat :: i != |a.data| && SeparatorAt(Fields(a), i))
  {
    if b: Secret :| Collides(schema, a, b) {
      CollisionSplitsElsewhere(schema, a, b);
    }
    if i: nat :| i != |a.data| && SeparatorAt(Fields(a), i) {
      OtherSplitCollides(schema, a, i);
    }
  }

  /** Without quotes in data and nonce there is one separator. */
  lemma QuoteFreeSplitsOnce(a: Secret)
    requires QuoteFree(a.data) && QuoteFree(OrEmpty(a.nonce))
    ensures SplitsOnce(a)
  {
    forall i: nat | SeparatorAt(Fields(a), i) ensures i == |a.data| {
      var f, n := Fields(a), |a.data|;
      assert f[i] == f[i..i + 3][0] == '"' && f[i + 2] == f[i..i + 3][2] == '"';
      assert forall j | 0 <= j < |f| && j != n && j != n + 2 :: f[j] != '"';
    }
  }

  /** So the bytes of a secret without quotes in data and nonce are its own. */
  lemma QuoteFreeBytesAreUnshared(schema: Schema, a: Secret, b: Secret)
    requires Lawful(schema) && QuoteFree(a.data) && QuoteFree(OrEmpty(a.nonce))
    ensures CanonicalBytes(schema, a) == CanonicalBytes(schema, b) <==> ContentOf(schema, a) == ContentOf(schema, b)
  {
    QuoteFreeSplitsOnce(a);
    RenderWritesContent(schema, a);
    RenderWritesContent(schema, b);
    if Collides(schema, a, b) {
      CollisionSplitsElsewhere(schema, a, b);
    }
  }

  /** Two secrets of one kind that divide one text between data and nonce in different places. */
  function OneTwin(tags: seq<seq<string>>): Secret {
    Secret(P2pkVoucher, Some("z"), "x\",\"y", tags)
  }

  function OtherTwin(tags: seq<seq<string>>): Secret {
    Secret(P2pkVoucher, Some("y\",\"z"), "x", tags)
  }

  /** With the same tags they have the same canonical text, under any schema. */
  lemma TwoSecretsOneText(schema: Schema, tags: seq<seq<string>>)
    ensures Collides(schema, OneTwin(tags), OtherTwin(tags))
  {
    var a, b := OneTwin(tags), OtherTwin(tags);
    assert Fields(a) == "x\",\"y\",\"z" == Fields(b);
    HeadAndEnding(schema, a);
    HeadAndEnding(schema, b);
    assert |a.data| != |b.data|;
  }
}
