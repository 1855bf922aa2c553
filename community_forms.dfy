/** `PostForm.clean_tags`: turns the free-text tag field of the post form into the list of
    tag names stored with a post. */
module CommunityForms {
  import opened Wrappers
  import opened Lists
  import opened CommunityText

  /** The characters of the pattern `[\s,、]`: whitespace, the ASCII comma and the
      ideographic comma. */
  predicate Separator(c: char)
  {
    IsSpace(c) || c == ',' || c == '、'
  }

  predicate NoSeparatorIn(t: string)
  {
    forall i :: 0 <= i < |t| ==> !Separator(t[i])
  }

  predicate NonEmpty(t: string)
  {
    t != []
  }

  /** `re.sub(r'[\s,、]+', ',', s)`: every maximal run of separators becomes one comma. */
  function Collapse(s: string): (r: string)
    ensures forall c :: c in r ==> !IsSpace(c) && c != '、'
    decreases |s|
  {
    if s == [] then []
    else if Separator(s[0]) then [','] + Collapse(s[Leading(s, Separator)..])
    else [s[0]] + Collapse(s[1..])
  }

  /** A piece that survives the comprehension: it is not blank. */
  predicate NotBlank(t: string)
  {
    Strip(t) != []
  }

  /** `[tag.strip() for tag in processed_string.split(',') if tag.strip()]`. */
  function TagList(s: string): (r: seq<string>)
    ensures forall i :: 0 <= i < |r| ==> r[i] != [] && NoSeparatorIn(r[i])
  {
    var pieces := SplitOn(Collapse(s), IsComma);
    var kept := Filter(pieces, NotBlank);
    var r := Map(kept, Strip);
    assert forall i :: 0 <= i < |r| ==> r[i] != [] && NoSeparatorIn(r[i]) by {
      forall i | 0 <= i < |r| ensures r[i] != [] && NoSeparatorIn(r[i]) {
        assert kept[i] in pieces;
        forall j | 0 <= j < |r[i]| ensures !Separator(r[i][j]) {
          assert r[i][j] in r[i];
          assert r[i][j] in kept[i];
        }
      }
    }
    r
  }

  /** `tag[1:] if tag.startswith('#') else tag`. */
  function DropHash(t: string): (r: string)
    ensures |t| > 0 && t[0] == '#' ==> t == "#" + r
    ensures (|t| == 0 || t[0] != '#') ==> r == t
  {
    if |t| > 0 && t[0] == '#' then t[1..] else t
  }

  /** What `clean_tags` returns: nothing for a missing or empty field, otherwise every piece
      with one leading "#" removed, keeping the pieces that are still non-empty. */
  function CleanedTags(tagsString: Option<string>): (r: seq<string>)
    ensures tagsString.None? || tagsString.value == [] ==> r == []
    ensures forall i :: 0 <= i < |r| ==> r[i] != [] && NoSeparatorIn(r[i])
  {
    if tagsString.None? || tagsString.value == [] then []
    else
      var tags := TagList(tagsString.value);
      var r := Filter(Map(tags, DropHash), NonEmpty);
      DropHashClean(tags);
      assert forall i :: 0 <= i < |r| ==> r[i] in r;
      r
  }

  lemma DropHashClean(tags: seq<string>)
    requires forall i :: 0 <= i < |tags| ==> NoSeparatorIn(tags[i])
    ensures forall t :: t in Map(tags, DropHash) ==> NoSeparatorIn(t)
  {
    forall i | 0 <= i < |tags| ensures NoSeparatorIn(DropHash(tags[i])) {
      var t := tags[i];
      if |t| > 0 && t[0] == '#' {
        assert forall j :: 0 <= j < |t| - 1 ==> t[1..][j] == t[j + 1];
      }
    }
  }

  /** `PostForm.clean_tags`: the loop over the pieces that strips one "#" from each and keeps
      the non-empty results. */
  method CleanTags(tagsString: Option<string>) returns (cleaned: seq<string>)
    ensures cleaned == CleanedTags(tagsString)
  {
    if tagsString.None? || tagsString.value == [] {
      return [];
    }
    var tags := TagList(tagsString.value);
    cleaned := [];
    for i := 0 to |tags|
      invariant cleaned == Filter(Map(tags[..i], DropHash), NonEmpty)
    {
      var tag := tags[i];
      CleanStep(tags, i);
      if |tag| > 0 && tag[0] == '#' {
        tag := tag[1..];
      }
      if tag != [] {
        cleaned := cleaned + [tag];
      }
    }
    assert tags[..|tags|] == tags;
  }

  /** One more piece adds its cleaned form when that is non-empty. */
  lemma CleanStep(tags: seq<string>, i: nat)
    requires i < |tags|
    ensures Filter(Map(tags[..i + 1], DropHash), NonEmpty)
         == Filter(Map(tags[..i], DropHash), NonEmpty) + (if DropHash(tags[i]) != [] then [DropHash(tags[i])] else [])
  {
    assert tags[..i + 1] == tags[..i] + [tags[i]];
    MapSnoc(tags[..i], tags[i], DropHash);
    FilterSnoc(Map(tags[..i], DropHash), DropHash(tags[i]), NonEmpty);
  }

  // ------------------------------------------------------------- the edit round trip

  /** `f"#{tag.name}"`: how the edit form shows a stored tag. */
  function WithHash(name: string): string
  {
    "#" + name
  }

  /** A separator-free prefix passes `re.sub` unchanged. */
  lemma {:induction false} CollapsePrefix(x: string, t: string)
    requires NoSeparatorIn(x)
    ensures Collapse(x + t) == x + Collapse(t)
  {
    if x != [] {
      assert (x + t)[0] == x[0];
      assert (x + t)[1..] == x[1..] + t;
      CollapsePrefix(x[1..], t);
      assert x == [x[0]] + x[1..];
    } else {
      assert x + t == t;
    }
  }

  /** Joining separator-free names with single spaces and collapsing gives the names joined
      with commas. */
  lemma {:induction false} CollapseJoin(xs: seq<string>)
    requires |xs| >= 1
    requires forall k :: 0 <= k < |xs| ==> xs[k] != [] && NoSeparatorIn(xs[k])
    ensures Collapse(JoinWith(xs, ' ')) == JoinWith(xs, ',')
  {
    if |xs| == 1 {
      CollapsePrefix(xs[0], []);
      assert xs[0] + [] == xs[0];
    } else {
      var rest := JoinWith(xs[1..], ' ');
      CollapseJoin(xs[1..]);
      assert JoinWith(xs, ' ') == xs[0] + ([' '] + rest);
      CollapsePrefix(xs[0], [' '] + rest);
      assert rest[0] == xs[1][0] by {
        if |xs[1..]| > 1 {
          assert rest == xs[1] + ([' '] + JoinWith(xs[2..], ' '));
        }
      }
      assert Leading([' '] + rest, Separator) == 1;
      assert ([' '] + rest)[1..] == rest;
      assert JoinWith(xs, ',') == xs[0] + ([','] + JoinWith(xs[1..], ','));
    }
  }

  /** The names as the edit form shows them satisfy the round trip's conditions. */
  lemma ShownNames(names: seq<string>)
    requires forall k :: 0 <= k < |names| ==> names[k] != [] && NoSeparatorIn(names[k])
    ensures forall k :: 0 <= k < |names| ==> WithHash(names[k]) != [] && NoSeparatorIn(WithHash(names[k]))
    ensures Map(Map(names, WithHash), DropHash) == names
  {
    forall k | 0 <= k < |names| ensures NoSeparatorIn(WithHash(names[k])) {
      var h := WithHash(names[k]);
      assert forall i :: 1 <= i < |h| ==> h[i] == names[k][i - 1];
    }
  }

  /** Non-empty separator-free pieces joined by spaces split back into the same pieces. */
  lemma TagListOfJoin(xs: seq<string>)
    requires |xs| >= 1
    requires forall k :: 0 <= k < |xs| ==> xs[k] != [] && NoSeparatorIn(xs[k])
    ensures TagList(JoinWith(xs, ' ')) == xs
  {
    var s := JoinWith(xs, ' ');
    CollapseJoin(xs);
    SplitJoin(xs, ',', IsComma);
    assert SplitOn(Collapse(s), IsComma) == xs;
    StripAll(xs);
  }

  lemma StripAll(xs: seq<string>)
    requires forall k :: 0 <= k < |xs| ==> xs[k] != [] && NoSeparatorIn(xs[k])
    ensures Map(Filter(xs, NotBlank), Strip) == xs
  {
    forall k | 0 <= k < |xs| ensures Strip(xs[k]) == xs[k] {
      assert forall c :: c in xs[k] ==> !IsSpace(c);
    }
    FilterAll(xs, NotBlank);
  }

  /** The tags of a post survive an edit that leaves the tag field as the edit form shows it:
      the stored names, each with a "#" in front, joined by spaces, clean back to the same
      names in the same order (duplicates included) — provided each name is non-empty and
      free of separators, as every name `clean_tags` produces is. */
  lemma CleanedTagsRoundTrip(names: seq<string>)
    requires forall k :: 0 <= k < |names| ==> names[k] != [] && NoSeparatorIn(names[k])
    ensures CleanedTags(Some(JoinWith(Map(names, WithHash), ' '))) == names
  {
    var shown := Map(names, WithHash);
    var s := JoinWith(shown, ' ');
    if names != [] {
      ShownNames(names);
      assert s != [] by {
        if |shown| > 1 {
          assert s == shown[0] + [' '] + JoinWith(shown[1..], ' ');
        }
      }
      TagListOfJoin(shown);
      FilterAll(names, NonEmpty);
    }
  }

  /** A field holding one piece and no separator gives that piece less one leading "#",
      or nothing when that leaves it empty. */
  lemma SingleTag(s: string)
    requires s != [] && NoSeparatorIn(s)
    ensures CleanedTags(Some(s)) == if DropHash(s) != [] then [DropHash(s)] else []
  {
    TagListOfJoin([s]);
    assert JoinWith([s], ' ') == s;
    assert Map([s], DropHash) == [DropHash(s)];
  }

  /** Exactly one leading "#" is removed: "##a" gives the tag "#a". */
  lemma OneHashRemoved()
    ensures CleanedTags(Some("##a")) == ["#a"]
  {
    var s := "##a";
    assert NoSeparatorIn(s);
    SingleTag(s);
    assert DropHash(s) == "#a";
  }

  /** A lone "#" leaves an empty tag, which is dropped. */
  lemma LoneHashDropped()
    ensures CleanedTags(Some("#")) == []
  {
    var s := "#";
    assert NoSeparatorIn(s);
    SingleTag(s);
  }
}
