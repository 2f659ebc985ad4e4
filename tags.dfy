/**
 * The post tag codec: a list of tags is stored as one comma-joined text
 * column and expanded back into a list when a post is shown.
 */
module Tags {
  import opened Wrappers
  import opened Strings

  /** The character that separates tags in the stored text. */
  const Delimiter: char := ','

  /** A tag as the codec produces it: non-empty and without surrounding white space. */
  predicate IsCleanTag(t: string)
  {
    t != [] && IsStripped(t)
  }

  /**
   * The comprehension both directions share: every element stripped, the
   * elements that strip to nothing dropped, order and duplicates kept.
   */
  function Clean(tags: seq<string>): (r: seq<string>)
    ensures |r| <= |tags|
    ensures forall i :: 0 <= i < |r| ==> IsCleanTag(r[i])
  {
    if tags == [] then []
    else
      var t := tags[0];
      if t != [] && Strip(t) != [] then [Strip(t)] + Clean(tags[1..]) else Clean(tags[1..])
  }

  /** One element on its own: kept stripped, or dropped when it is blank. */
  lemma CleanSingle(t: string)
    ensures Clean([t]) == if Strip(t) == [] then [] else [Strip(t)]
  {
    assert [t][1..] == [];
  }

  /** Cleaning works element by element: it keeps the order and removes no duplicates. */
  lemma {:induction false} CleanAppend(a: seq<string>, b: seq<string>)
    ensures Clean(a + b) == Clean(a) + Clean(b)
  {
    if a == [] {
      assert a + b == b;
    } else {
      assert (a + b)[0] == a[0] && (a + b)[1..] == a[1..] + b;
      CleanAppend(a[1..], b);
    }
  }

  /** A list that is already clean is left as it is. */
  lemma {:induction false} CleanFixpoint(tags: seq<string>)
    requires forall i :: 0 <= i < |tags| ==> IsCleanTag(tags[i])
    ensures Clean(tags) == tags
  {
    if tags != [] {
      StripStripped(tags[0]);
      CleanFixpoint(tags[1..]);
    }
  }

  /** Tags that all strip to nothing clean to nothing. */
  lemma {:induction false} BlankTagsClean(tags: seq<string>)
    requires forall i :: 0 <= i < |tags| ==> Strip(tags[i]) == []
    ensures Clean(tags) == []
  {
    if tags != [] {
      BlankTagsClean(tags[1..]);
    }
  }

  /** Cleaning cannot introduce the delimiter. */
  lemma {:induction false} CleanKeepsDelimiterOut(tags: seq<string>)
    requires forall i :: 0 <= i < |tags| ==> Delimiter !in tags[i]
    ensures forall i :: 0 <= i < |Clean(tags)| ==> Delimiter !in Clean(tags)[i]
  {
    if tags != [] {
      StripWithin(tags[0]);
      CleanKeepsDelimiterOut(tags[1..]);
    }
  }

  /**
   * `tags_to_text`: `None` for an absent or empty list and for a list of
   * blank tags only; otherwise the cleaned tags joined by commas.
   */
  function TagsToText(tags: Option<seq<string>>): (r: Option<string>)
    ensures r == None <==> tags == None || Clean(tags.value) == []
    ensures r != None ==> r.value != [] && r.value == Join(Clean(tags.value), Delimiter)
  {
    if tags == None || tags.value == [] then None
    else
      var cleaned := Clean(tags.value);
      if cleaned == [] then None
      else
        assert StartsWith(Join(cleaned, Delimiter), cleaned[0]);
        Some(Join(cleaned, Delimiter))
  }

  /**
   * `tags_from_text`: `[]` for absent or empty text; otherwise the
   * comma-separated pieces, stripped, with the blank ones dropped.
   */
  function TagsFromText(text: Option<string>): (r: seq<string>)
    ensures text == None || text.value == [] ==> r == []
    ensures forall i :: 0 <= i < |r| ==> IsCleanTag(r[i]) && Delimiter !in r[i]
    ensures text != None && text.value != [] ==> r == Clean(Split(text.value, Delimiter))
  {
    if text == None || text.value == [] then []
    else
      var pieces := Split(text.value, Delimiter);
      CleanKeepsDelimiterOut(pieces);
      Clean(pieces)
  }

  /**
   * Decoding text made of comma-free pieces joined by commas gives those
   * pieces, stripped, with the blank ones dropped, in order.
   */
  lemma DecodeJoined(pieces: seq<string>)
    requires |pieces| >= 1 && forall i :: 0 <= i < |pieces| ==> Delimiter !in pieces[i]
    requires Join(pieces, Delimiter) != []
    ensures TagsFromText(Some(Join(pieces, Delimiter))) == Clean(pieces)
  {
    SplitJoin(pieces, Delimiter);
  }

  /**
   * The codec round trip: for tags that do not themselves contain a comma,
   * decoding the stored text gives back the cleaned list.
   */
  lemma RoundTrip(tags: seq<string>)
    requires forall i :: 0 <= i < |tags| ==> Delimiter !in tags[i]
    ensures TagsFromText(TagsToText(Some(tags))) == Clean(tags)
  {
    var cleaned := Clean(tags);
    if cleaned != [] {
      CleanKeepsDelimiterOut(tags);
      SplitJoin(cleaned, Delimiter);
      CleanFixpoint(cleaned);
    }
  }

  /** Encoding decoded text and decoding it again changes nothing. */
  lemma DecodeEncodeDecode(text: Option<string>)
    ensures TagsFromText(TagsToText(Some(TagsFromText(text)))) == TagsFromText(text)
  {
    var tags := TagsFromText(text);
    RoundTrip(tags);
    CleanFixpoint(tags);
  }

  /**
   * Duplicates are kept and blanks dropped: a clean tag `t`, a padded copy of
   * it and a blank element (as in `["go", " go", "  "]`) are stored as
   * `t + "," + t` and shown again as `[t, t]`.
   */
  lemma PaddedDuplicateKept(t: string, padded: string, blank: string)
    requires IsCleanTag(t) && Delimiter !in t
    requires Strip(padded) == t && Delimiter !in padded
    requires Strip(blank) == [] && Delimiter !in blank
    ensures TagsToText(Some([t, padded, blank])) == Some(t + [Delimiter] + t)
    ensures TagsFromText(Some(t + [Delimiter] + t)) == [t, t]
  {
    var tags := [t, padded, blank];
    var text := t + [Delimiter] + t;
    assert Clean(tags) == [t, t] by { CleanPaddedDuplicate(t, padded, blank); }
    assert Join([t, t], Delimiter) == text by { assert [t, t][1..] == [t]; }
    assert TagsToText(Some(tags)) == Some(text);
    assert TagsFromText(Some(text)) == [t, t] by {
      assert forall i :: 0 <= i < |tags| ==> Delimiter !in tags[i];
      RoundTrip(tags);
    }
  }

  /** The cleaning step of the example above. */
  lemma CleanPaddedDuplicate(t: string, padded: string, blank: string)
    requires IsCleanTag(t) && Strip(padded) == t && Strip(blank) == []
    ensures Clean([t, padded, blank]) == [t, t]
  {
    StripStripped(t);
    CleanSingle(t);
    CleanSingle(padded);
    CleanSingle(blank);
    CleanAppend([t] + [padded], [blank]);
    CleanAppend([t], [padded]);
    assert [t, padded, blank] == [t] + [padded] + [blank];
  }
}
