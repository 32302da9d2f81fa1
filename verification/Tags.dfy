/** The tags of an event: lists of texts, the first of which is the tag's name. */
module Tags {
  predicate IsNamed(tag: seq<string>, name: string) {
    tag != [] && tag[0] == name
  }

  /** The tags with a given name. */
  function TagsNamed(tags: seq<seq<string>>, name: string): seq<seq<string>> {
    if tags == [] then []
    else (if IsNamed(tags[0], name) then [tags[0]] else []) + TagsNamed(tags[1..], name)
  }

  /** Tag `i` has this name, and no other has. */
  predicate IsOnly(tags: seq<seq<string>>, name: string, i: nat) {
    i < |tags| && IsNamed(tags[i], name) && forall j | 0 <= j < |tags| && j != i :: !IsNamed(tags[j], name)
  }

  /** There is exactly one tag with this name, and its second part is `value`. */
  ghost predicate OnlyTag(tags: seq<seq<string>>, name: string, value: string) {
    exists i: nat :: IsOnly(tags, name, i) && |tags[i]| >= 2 && tags[i][1] == value
  }

  ghost predicate HasOnlyTag(tags: seq<seq<string>>, name: string) {
    exists value :: OnlyTag(tags, name, value)
  }

  lemma {:induction false} NoneNamed(tags: seq<seq<string>>, name: string)
    ensures TagsNamed(tags, name) == [] <==> forall i | 0 <= i < |tags| :: !IsNamed(tags[i], name)
  {
    if tags != [] {
      NoneNamed(tags[1..], name);
      assert tags == [tags[0]] + tags[1..];
    }
  }

  lemma {:induction false} OneNamed(tags: seq<seq<string>>, name: string, t: seq<string>)
    ensures TagsNamed(tags, name) == [t] <==> exists i: nat :: IsOnly(tags, name, i) && tags[i] == t
  {
    if tags != [] {
      var rest := tags[1..];
      if IsNamed(tags[0], name) {
        NoneNamed(rest, name);
        OneNamedFirst(tags, name, t);
        assert TagsNamed(tags, name) == [tags[0]] + TagsNamed(rest, name);
        if TagsNamed(tags, name) == [t] {
          assert TagsNamed(tags, name)[0] == tags[0];
        }
      } else {
        OneNamed(rest, name, t);
        OneNamedLater(tags, name, t);
      }
    }
  }

  lemma OneNamedFirst(tags: seq<seq<string>>, name: string, t: seq<string>)
    requires tags != [] && IsNamed(tags[0], name)
    ensures (exists i: nat :: IsOnly(tags, name, i) && tags[i] == t)
            <==> tags[0] == t && forall j | 0 <= j < |tags[1..]| :: !IsNamed(tags[1..][j], name)
  {
    if tags[0] == t && forall j | 0 <= j < |tags[1..]| :: !IsNamed(tags[1..][j], name) {
      forall j | 0 <= j < |tags| && j != 0 ensures !IsNamed(tags[j], name) {
        assert tags[1..][j - 1] == tags[j];
      }
      assert IsOnly(tags, name, 0);
    }
  }

  lemma OneNamedLater(tags: seq<seq<string>>, name: string, t: seq<string>)
    requires tags != [] && !IsNamed(tags[0], name)
    ensures (exists i: nat :: IsOnly(tags, name, i) && tags[i] == t)
            <==> (exists i: nat :: IsOnly(tags[1..], name, i) && tags[1..][i] == t)
  {
    var rest := tags[1..];
    if i: nat :| IsOnly(tags, name, i) && tags[i] == t {
      assert IsOnly(rest, name, i - 1) && rest[i - 1] == t;
    }
    if i: nat :| IsOnly(rest, name, i) && rest[i] == t {
      forall j | 0 <= j < |tags| && j != i + 1 ensures !IsNamed(tags[j], name) {
        assert j > 0 ==> rest[j - 1] == tags[j];
      }
      assert IsOnly(tags, name, i + 1);
    }
  }

  /** The only tag with this name, if it has a second part, is what the filter leaves. */
  lemma OnlyTagIsFiltered(tags: seq<seq<string>>, name: string, value: string)
    ensures var matches := TagsNamed(tags, name);
            (|matches| == 1 && |matches[0]| >= 2 && matches[0][1] == value) <==> OnlyTag(tags, name, value)
  {
    var matches := TagsNamed(tags, name);
    if |matches| == 1 {
      OneNamed(tags, name, matches[0]);
      assert matches == [matches[0]];
    }
    forall i: nat | IsOnly(tags, name, i) ensures matches == [tags[i]] {
      OneNamed(tags, name, tags[i]);
    }
  }
}
