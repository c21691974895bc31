/** `parseTSV` of services/dataService.ts: a published resource sheet, as
    tab-separated text, becomes the list of `ResourceItem`s the library shows.

    Line 0 holds the headers, normalised by trimming, lower-casing and deleting
    whitespace ("Link Url" becomes "linkurl").  Every later line that is not
    blank becomes a record from header to trimmed cell; a record whose `title`
    is empty is dropped, every other one becomes exactly one item, in line
    order.  YouTube links give the item an embed address and, when the sheet
    has no thumbnail, a derived one. */
module ResourceParser {
  import opened Text
  import opened Optional
  import opened SheetRows
  import opened YouTube
  import opened Types

  const ThumbnailPrefix := "https://img.youtube.com/vi/"
  const ThumbnailSuffix := "/hqdefault.jpg"
  const EmbedPrefix := "https://www.youtube.com/embed/"
  /** The link of an item whose sheet gives none. */
  const NoLink := "#"
  /** Prefix of the id of an item whose sheet gives none; the line index follows. */
  const RowIdPrefix := "row-"
  /** The header keys accepted for the grade column, highest priority first. */
  const GradeAliases: seq<string> := ["grade", "lớp", "lop", "class"]

  /** The value of the first key whose cell is non-empty, else the empty text. */
  function FirstNonEmpty(item: Record, keys: seq<string>): (v: string)
    ensures v == "" <==> forall i :: 0 <= i < |keys| ==> Get(item, keys[i]) == ""
    ensures v != "" ==> exists i :: 0 <= i < |keys| && v == Get(item, keys[i]) &&
                                  forall j :: 0 <= j < i ==> Get(item, keys[j]) == ""
  {
    if keys == [] then ""
    else
      var rest := FirstNonEmpty(item, keys[1..]);
      if Get(item, keys[0]) != "" then Get(item, keys[0])
      else
        assert forall i :: 1 <= i < |keys| ==> keys[i] == keys[1..][i - 1];
        rest
  }

  /** The YouTube video id of the record's link; an empty link has none. */
  function VideoId(item: Record): (id: Option<string>)
    ensures id.Some? ==> |id.value| == IdLength
    ensures Get(item, "linkurl") == "" ==> id.None?
  {
    var link := Get(item, "linkurl");
    if link == "" then None else YouTubeID(link)
  }

  /** The item built from the record of line `line`, whose title is non-empty
      (services/dataService.ts:83-114). */
  function ResourceOf(item: Record, line: nat): ResourceItem
    requires Get(item, "title") != ""
  {
    var video := VideoId(item);
    var cell := Get(item, "thumbnailurl");
    var thumbnail := if cell == "" && video.Some? then ThumbnailPrefix + video.value + ThumbnailSuffix else cell;
    ResourceItem(
      id := OrElse(Get(item, "id"), RowIdPrefix + NatToString(line)),
      title := Get(item, "title"),
      description := OrElse(Get(item, "description"), ""),
      thumbnailUrl := Some(OrElse(thumbnail, "")),
      linkUrl := OrElse(Get(item, "linkurl"), NoLink),
      embedUrl := if video.Some? then Some(EmbedPrefix + video.value) else None,
      category := Lookup(item, "category"),
      author := Lookup(item, "author"),
      date := Lookup(item, "date"),
      grade := Some(FirstNonEmpty(item, GradeAliases)))
  }

  /** The defaults and the YouTube enrichment of an item: the sheet's id, else
      one made from the line index; the link, else `#`; an embed address
      exactly when the link names a video; the sheet's thumbnail, else the
      video's, else ""; the first non-empty grade alias. */
  lemma ResourceFields(item: Record, line: nat)
    requires Get(item, "title") != ""
    ensures ResourceOf(item, line).title == Get(item, "title")
    ensures Get(item, "id") != "" ==> ResourceOf(item, line).id == Get(item, "id")
    ensures Get(item, "id") == "" ==> ResourceOf(item, line).id == RowIdPrefix + NatToString(line)
    ensures ResourceOf(item, line).description == Get(item, "description")
    ensures ResourceOf(item, line).linkUrl != ""
    ensures Get(item, "linkurl") != "" ==> ResourceOf(item, line).linkUrl == Get(item, "linkurl")
    ensures Get(item, "linkurl") == "" ==> ResourceOf(item, line).linkUrl == NoLink
    ensures ResourceOf(item, line).embedUrl.Some? <==> VideoId(item).Some?
    ensures VideoId(item).Some? ==> ResourceOf(item, line).embedUrl == Some(EmbedPrefix + VideoId(item).value)
    ensures ResourceOf(item, line).thumbnailUrl.Some?
    ensures Get(item, "thumbnailurl") != "" ==> ResourceOf(item, line).thumbnailUrl == Some(Get(item, "thumbnailurl"))
    ensures Get(item, "thumbnailurl") == "" && VideoId(item).Some? ==>
      ResourceOf(item, line).thumbnailUrl == Some(ThumbnailPrefix + VideoId(item).value + ThumbnailSuffix)
    ensures Get(item, "thumbnailurl") == "" && VideoId(item).None? ==> ResourceOf(item, line).thumbnailUrl == Some("")
    ensures ResourceOf(item, line).grade == Some(FirstNonEmpty(item, GradeAliases))
    ensures ResourceOf(item, line).category == Lookup(item, "category")
    ensures ResourceOf(item, line).author == Lookup(item, "author")
    ensures ResourceOf(item, line).date == Lookup(item, "date")
  {
  }

  /** A line's record that yields an item: the line is not blank and its
      title is non-empty. */
  predicate IsTitled(record: Option<Record>) {
    record.Some? && Get(record.value, "title") != ""
  }

  /** What line `line` contributes: its item, or nothing. */
  function LineItem(record: Option<Record>, line: nat): Option<ResourceItem> {
    if IsTitled(record) then Some(ResourceOf(record.value, line)) else None
  }

  /** What every line contributes, index for index; the header line (0)
      contributes nothing. */
  function LineItems(records: seq<Option<Record>>): (items: seq<Option<ResourceItem>>)
    ensures |items| == |records|
  {
    seq(|records|, i requires 0 <= i < |records| => if i == 0 then None else LineItem(records[i], i))
  }

  /** What `parseTSV(tsvText)` returns. */
  function ParseResources(tsvText: string): seq<ResourceItem> {
    var rows := Split(tsvText, '\n');
    if |rows| < 2 then [] else Present(LineItems(LineRecords(rows, HeaderKeys(rows[0], ""))))
  }

  /** The body of the loop of `parseTSV` for a line with a title: YouTube
      enrichment, then the item with its defaults. */
  method MakeItem(item: Record, i: nat) returns (resource: ResourceItem)
    requires Get(item, "title") != ""
    ensures resource == ResourceOf(item, i)
  {
    var finalThumbnail := Get(item, "thumbnailurl");
    var embedUrl: Option<string> := None;
    var link := Get(item, "linkurl");
    if link != "" {
      var ytId := YouTubeID(link);
      if ytId.Some? {
        if finalThumbnail == "" {
          finalThumbnail := ThumbnailPrefix + ytId.value + ThumbnailSuffix;
        }
        embedUrl := Some(EmbedPrefix + ytId.value);
      }
    }
    var gradeRaw := FirstNonEmpty(item, GradeAliases);
    resource := ResourceItem(
      id := OrElse(Get(item, "id"), RowIdPrefix + NatToString(i)),
      title := Get(item, "title"),
      description := OrElse(Get(item, "description"), ""),
      thumbnailUrl := Some(OrElse(finalThumbnail, "")),
      linkUrl := OrElse(link, NoLink),
      embedUrl := embedUrl,
      category := Lookup(item, "category"),
      author := Lookup(item, "author"),
      date := Lookup(item, "date"),
      grade := Some(gradeRaw));
  }

  /** One pass of the loop of `parseTSV`: a blank line is skipped, a line
      without a title is dropped, any other line gives its item. */
  method ParseLine(line: string, headers: seq<string>, i: nat) returns (resource: Option<ResourceItem>)
    ensures resource == LineItem(LineRecord(line, headers), i)
  {
    var row := Split(line, '\t');
    if IsBlankLine(row) {
      return None;
    }
    var item := BuildRecord(headers, row);
    if Get(item, "title") == "" {
      return None;
    }
    var r := MakeItem(item, i);
    return Some(r);
  }

  /** `parseTSV`, line by line, pushing one item per titled line. */
  method ParseTSV(tsvText: string) returns (data: seq<ResourceItem>)
    ensures data == ParseResources(tsvText)
  {
    var rows := Split(tsvText, '\n');
    if |rows| < 2 {
      return [];
    }
    var headers := HeaderKeys(rows[0], "");
    ghost var items := LineItems(LineRecords(rows, headers));
    data := [];
    for i := 1 to |rows|
      invariant data == Present(items[..i])
    {
      var resource := ParseLine(rows[i], headers, i);
      assert items[i] == resource;
      PresentNext(items, i);
      if resource.Some? {
        data := data + [resource.value];
      }
    }
    assert items[..|rows|] == items;
  }

  // ---------------------------------------------------------------------------
  // properties of the specification

  /** Text with no line break (fewer than two lines) gives no items. */
  lemma ParseResourcesSingleLine(tsvText: string)
    requires '\n' !in tsvText
    ensures ParseResources(tsvText) == []
  {
    SplitSingle(tsvText, '\n');
  }

  /** Exactly the titled lines give items: an item is in the list exactly
      when it is the item of a titled line. */
  lemma ResourcesFromTitledLines(records: seq<Option<Record>>, r: ResourceItem)
    ensures r in Present(LineItems(records)) <==>
      exists i :: 1 <= i < |records| && IsTitled(records[i]) && r == ResourceOf(records[i].value, i)
  {
    var items := LineItems(records);
    PresentMembers(items, r);
    if exists i :: 0 <= i < |items| && items[i] == Some(r) {
      var i :| 0 <= i < |items| && items[i] == Some(r);
      assert 1 <= i < |records| && IsTitled(records[i]) && r == ResourceOf(records[i].value, i);
    }
    if exists i :: 1 <= i < |records| && IsTitled(records[i]) && r == ResourceOf(records[i].value, i) {
      var i :| 1 <= i < |records| && IsTitled(records[i]) && r == ResourceOf(records[i].value, i);
      assert items[i] == Some(r);
    }
  }

  /** Items keep line order: the item of a titled line sits right after the
      items of the lines before it, and a later titled line's item comes later. */
  lemma ResourcesInLineOrder(records: seq<Option<Record>>, i: nat, j: nat)
    requires 1 <= i < j < |records| && IsTitled(records[i])
    ensures |Present(LineItems(records)[..i])| < |Present(LineItems(records)[..j])|
    ensures |Present(LineItems(records)[..i])| < |Present(LineItems(records))|
    ensures Present(LineItems(records))[|Present(LineItems(records)[..i])|] == ResourceOf(records[i].value, i)
  {
    var items := LineItems(records);
    assert items[i] == Some(ResourceOf(records[i].value, i));
    PresentAt(items, i);
    PresentOrder(items, i, j);
  }

  /** Items whose sheet gives no id get ids from their line index, so two such
      items from different lines never share an id. */
  lemma GeneratedIdsDistinct(item: Record, line: nat, item': Record, line': nat)
    requires Get(item, "title") != "" && Get(item', "title") != ""
    requires Get(item, "id") == "" && Get(item', "id") == ""
    requires line != line'
    ensures ResourceOf(item, line).id != ResourceOf(item', line').id
  {
    ResourceFields(item, line);
    ResourceFields(item', line');
    if ResourceOf(item, line).id == ResourceOf(item', line').id {
      var a, b := NatToString(line), NatToString(line');
      assert (RowIdPrefix + a)[|RowIdPrefix|..] == a;
      assert (RowIdPrefix + b)[|RowIdPrefix|..] == b;
      NatToStringInjective(line, line');
    }
  }
}
