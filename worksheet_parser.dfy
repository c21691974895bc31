/** `parseWorksheetTSV` of services/dataService.ts: a published worksheet sheet,
    one question per line, becomes the list of `Worksheet`s.

    Headers are trimmed, lower-cased and have each whitespace run replaced by
    `_`.  Each non-blank line carries a worksheet key (`id_bai_tap`, else `id`);
    lines without one are skipped.  The first line of a key creates its
    worksheet, and fixes its title; every line of the key whose `cau_hoi` is
    non-empty appends one question.  Worksheets come out in the order their keys
    were first seen, as the insertion order of a JavaScript `Map`. */
module WorksheetParser {
  import opened Text
  import opened Optional
  import opened SheetRows
  import opened Types

  const DefaultTitle := "Bài tập không tên"
  /** The question type assumed when `loai_cau_hoi` is empty. */
  const DefaultKind := "mc"
  /** The one `loai_cau_hoi` value, after lower-casing, that makes a free-text question. */
  const FreeTextKind := "text"
  /** The answer columns, in the order their values become options. */
  const OptionKeys: seq<string> := ["dap_an_a", "dap_an_b", "dap_an_c", "dap_an_d"]

  /** The worksheet a line belongs to: its `id_bai_tap` cell, else its `id` cell. */
  function WorksheetKey(item: Record): (key: string)
    ensures key == "" <==> Get(item, "id_bai_tap") == "" && Get(item, "id") == ""
  {
    OrElse(Get(item, "id_bai_tap"), Get(item, "id"))
  }

  /** The worksheet title a line gives: its `tieu_de_bai_tap` cell, else its
      `title` cell, else the default title. */
  function WorksheetTitle(item: Record): (title: string)
    ensures title != ""
  {
    OrElse(OrElse(Get(item, "tieu_de_bai_tap"), Get(item, "title")), DefaultTitle)
  }

  function KindOf(item: Record): QuestionType {
    if ToLower(OrElse(Get(item, "loai_cau_hoi"), DefaultKind)) == FreeTextKind then FreeText else MultipleChoice
  }

  /** The default "mc" never reads as "text": a question is free-text exactly
      when its own `loai_cau_hoi` lower-cases to "text". */
  lemma KindIsFreeTextIff(item: Record)
    ensures KindOf(item) == FreeText <==> ToLower(Get(item, "loai_cau_hoi")) == FreeTextKind
  {
    if Get(item, "loai_cau_hoi") == "" {
      assert ToLower(DefaultKind)[0] == 'm';
    }
  }

  /** The non-empty values of the given columns, in column order. */
  function CollectOptions(item: Record, keys: seq<string>): seq<string> {
    if keys == [] then []
    else (if Get(item, keys[0]) != "" then [Get(item, keys[0])] else []) + CollectOptions(item, keys[1..])
  }

  /** The options are the non-empty column values: no more of them than
      columns, none empty, each from a column, and every non-empty column
      value among them. */
  lemma {:induction false} CollectOptionsFilters(item: Record, keys: seq<string>)
    ensures |CollectOptions(item, keys)| <= |keys|
    ensures forall o :: o in CollectOptions(item, keys) ==> o != ""
    ensures forall o :: o in CollectOptions(item, keys) ==> exists i :: 0 <= i < |keys| && o == Get(item, keys[i])
    ensures forall i :: 0 <= i < |keys| && Get(item, keys[i]) != "" ==> Get(item, keys[i]) in CollectOptions(item, keys)
  {
    if keys != [] {
      CollectOptionsFilters(item, keys[1..]);
      assert forall i :: 1 <= i < |keys| ==> keys[i] == keys[1..][i - 1];
      forall o | o in CollectOptions(item, keys)
        ensures exists i :: 0 <= i < |keys| && o == Get(item, keys[i])
      {
        if o !in CollectOptions(item, keys[1..]) {
          assert o == Get(item, keys[0]);
        } else {
          var i :| 0 <= i < |keys[1..]| && o == Get(item, keys[1..][i]);
          assert o == Get(item, keys[i + 1]);
        }
      }
    }
  }

  /** The options of two runs of columns are the options of the first run
      followed by those of the second. */
  lemma {:induction false} CollectOptionsAppend(item: Record, keys: seq<string>, keys': seq<string>)
    ensures CollectOptions(item, keys + keys') == CollectOptions(item, keys) + CollectOptions(item, keys')
  {
    if keys != [] {
      assert (keys + keys')[1..] == keys[1..] + keys';
      CollectOptionsAppend(item, keys[1..], keys');
    } else {
      assert keys + keys' == keys';
    }
  }

  /** Four columns, one at a time. */
  lemma CollectFourOptions(item: Record, keys: seq<string>)
    requires |keys| == 4
    ensures CollectOptions(item, keys) ==
      CollectOptions(item, [keys[0]]) + CollectOptions(item, [keys[1]]) + CollectOptions(item, [keys[2]]) + CollectOptions(item, [keys[3]])
  {
    assert keys == [keys[0]] + ([keys[1]] + ([keys[2]] + [keys[3]]));
    CollectOptionsAppend(item, [keys[2]], [keys[3]]);
    CollectOptionsAppend(item, [keys[1]], [keys[2]] + [keys[3]]);
    CollectOptionsAppend(item, [keys[0]], [keys[1]] + ([keys[2]] + [keys[3]]));
  }

  /** `q-${id}-${i}`: the id of the question on line `line` of worksheet `key`. */
  function QuestionId(key: string, line: nat): string {
    "q-" + key + "-" + NatToString(line)
  }

  /** Within one worksheet, questions from different lines get different ids. */
  lemma QuestionIdInjective(key: string, i: nat, j: nat)
    requires QuestionId(key, i) == QuestionId(key, j)
    ensures i == j
  {
    var p := "q-" + key + "-";
    assert QuestionId(key, i)[|p|..] == NatToString(i);
    assert QuestionId(key, j)[|p|..] == NatToString(j);
    NatToStringInjective(i, j);
  }

  /** The question of a line of worksheet `key`, or None when `cau_hoi` is empty
      (services/dataService.ts:161-181). */
  function QuestionOf(item: Record, key: string, line: nat): (q: Option<Question>)
    ensures q.Some? <==> Get(item, "cau_hoi") != ""
    ensures q.Some? ==> q.value.text == Get(item, "cau_hoi") && q.value.text != ""
    ensures q.Some? ==> q.value.id == QuestionId(key, line)
    ensures q.Some? ==> q.value.kind == KindOf(item)
    ensures q.Some? ==> (q.value.options.None? <==> q.value.kind == FreeText)
    ensures q.Some? && q.value.options.Some? ==> q.value.options.value == CollectOptions(item, OptionKeys)
    ensures q.Some? ==> q.value.correctAnswer == Get(item, "dap_an_dung")
    ensures q.Some? ==> q.value.explanation == Some(Get(item, "giai_thich"))
  {
    if Get(item, "cau_hoi") == "" then None
    else
      var kind := KindOf(item);
      Some(Question(
        id := QuestionId(key, line),
        text := Get(item, "cau_hoi"),
        kind := kind,
        options := if kind == MultipleChoice then Some(CollectOptions(item, OptionKeys)) else None,
        correctAnswer := OrElse(Get(item, "dap_an_dung"), ""),
        explanation := Some(OrElse(Get(item, "giai_thich"), ""))))
  }

  /** A multiple-choice question has at most four options, none of them empty. */
  lemma OptionsBounded(item: Record, key: string, line: nat)
    requires QuestionOf(item, key, line).Some?
    requires QuestionOf(item, key, line).value.options.Some?
    ensures |QuestionOf(item, key, line).value.options.value| <= 4
    ensures forall o :: o in QuestionOf(item, key, line).value.options.value ==> o != ""
  {
    CollectOptionsFilters(item, OptionKeys);
  }

  // ---------------------------------------------------------------------------
  // grouping into an insertion-ordered map

  /** `worksheetsMap`: its keys in insertion order and its entries. */
  datatype Grouping = Grouping(keys: seq<string>, sheets: map<string, Worksheet>)

  /** The keys are distinct and are exactly the map's keys; every worksheet
      carries its own key as id; the empty key is never used. */
  ghost predicate WellFormed(g: Grouping) {
    && (forall i, j :: 0 <= i < j < |g.keys| ==> g.keys[i] != g.keys[j])
    && (forall k :: k in g.sheets <==> k in g.keys)
    && (forall k :: k in g.sheets ==> g.sheets[k].id == k)
    && "" !in g.sheets
  }

  /** The first line of a worksheet creates it: a new key gets an
      empty worksheet with the given title, appended to the key order. */
  function CreateSheet(g: Grouping, key: string, title: string): (g': Grouping)
    ensures key in g'.sheets
  {
    if key in g.sheets then g
    else Grouping(g.keys + [key], g.sheets[key := Worksheet(key, title, None, None, [])])
  }

  /** The line's question, if any, is appended to its worksheet. */
  function AppendQuestion(g: Grouping, key: string, q: Option<Question>): Grouping
    requires key in g.sheets
  {
    match q
    case None => g
    case Some(q) =>
      var ws := g.sheets[key];
      Grouping(g.keys, g.sheets[key := ws.(questions := ws.questions + [q])])
  }

  /** The effect of one non-blank line on the map (services/dataService.ts:146-184). */
  function GroupStep(g: Grouping, item: Record, line: nat): Grouping {
    var key := WorksheetKey(item);
    if key == "" then g
    else AppendQuestion(CreateSheet(g, key, WorksheetTitle(item)), key, QuestionOf(item, key, line))
  }

  /** The map after lines 1 to n - 1. */
  function GroupUpTo(records: seq<Option<Record>>, n: nat): Grouping
    requires 1 <= n <= |records|
  {
    if n == 1 then Grouping([], map[])
    else
      match records[n - 1]
      case None => GroupUpTo(records, n - 1)
      case Some(item) => GroupStep(GroupUpTo(records, n - 1), item, n - 1)
  }

  /** One line keeps the map well formed, keeps every existing key with its id
      and title, leaves the worksheets of other keys alone, and only ever
      appends keys. */
  lemma GroupStepKeeps(g: Grouping, item: Record, line: nat)
    ensures WellFormed(g) ==> WellFormed(GroupStep(g, item, line))
    ensures g.keys <= GroupStep(g, item, line).keys
    ensures forall k :: k in g.sheets ==> k in GroupStep(g, item, line).sheets
    ensures forall k :: k in g.sheets ==> GroupStep(g, item, line).sheets[k].id == g.sheets[k].id
    ensures forall k :: k in g.sheets ==> GroupStep(g, item, line).sheets[k].title == g.sheets[k].title
    ensures forall k :: k in g.sheets && k != WorksheetKey(item) ==> GroupStep(g, item, line).sheets[k] == g.sheets[k]
    ensures WorksheetKey(item) == "" ==> GroupStep(g, item, line) == g
    ensures forall k :: k in GroupStep(g, item, line).sheets ==> k in g.sheets || k == WorksheetKey(item)
    ensures WorksheetKey(item) in g.sheets ==> GroupStep(g, item, line).keys == g.keys
    ensures WorksheetKey(item) != "" && WorksheetKey(item) !in g.sheets ==>
      && GroupStep(g, item, line).keys == g.keys + [WorksheetKey(item)]
      && WorksheetKey(item) in GroupStep(g, item, line).sheets
      && GroupStep(g, item, line).sheets[WorksheetKey(item)].title == WorksheetTitle(item)
  {
    if WellFormed(g) {
      GroupStepWellFormed(g, item, line);
    }
    var key := WorksheetKey(item);
    if key != "" {
      CreateSheetKeeps(g, key, WorksheetTitle(item));
      AppendQuestionKeeps(CreateSheet(g, key, WorksheetTitle(item)), key, QuestionOf(item, key, line));
    }
  }

  /** Creating a sheet only adds the new key, at the end, with its title. */
  lemma CreateSheetKeeps(g: Grouping, key: string, title: string)
    ensures key in g.sheets ==> CreateSheet(g, key, title) == g
    ensures key !in g.sheets ==>
      && CreateSheet(g, key, title).keys == g.keys + [key]
      && CreateSheet(g, key, title).sheets[key].title == title
    ensures forall k :: k in g.sheets ==> k in CreateSheet(g, key, title).sheets && CreateSheet(g, key, title).sheets[k] == g.sheets[k]
    ensures forall k :: k in CreateSheet(g, key, title).sheets ==> k in g.sheets || k == key
  {
  }

  /** Appending a question changes only that worksheet's questions. */
  lemma AppendQuestionKeeps(g: Grouping, key: string, q: Option<Question>)
    requires key in g.sheets
    ensures AppendQuestion(g, key, q).keys == g.keys
    ensures AppendQuestion(g, key, q).sheets.Keys == g.sheets.Keys
    ensures forall k :: k in g.sheets ==>
      && AppendQuestion(g, key, q).sheets[k].id == g.sheets[k].id
      && AppendQuestion(g, key, q).sheets[k].title == g.sheets[k].title
    ensures forall k :: k in g.sheets && k != key ==> AppendQuestion(g, key, q).sheets[k] == g.sheets[k]
  {
  }

  lemma GroupStepWellFormed(g: Grouping, item: Record, line: nat)
    requires WellFormed(g)
    ensures WellFormed(GroupStep(g, item, line))
  {
    var key := WorksheetKey(item);
    if key != "" {
      var created := CreateSheet(g, key, WorksheetTitle(item));
      CreateSheetWellFormed(g, key, WorksheetTitle(item));
      AppendQuestionWellFormed(created, key, QuestionOf(item, key, line));
    }
  }

  lemma CreateSheetWellFormed(g: Grouping, key: string, title: string)
    requires WellFormed(g) && key != ""
    ensures WellFormed(CreateSheet(g, key, title))
  {
  }

  lemma AppendQuestionWellFormed(g: Grouping, key: string, q: Option<Question>)
    requires WellFormed(g) && key in g.sheets
    ensures WellFormed(AppendQuestion(g, key, q))
  {
  }

  lemma {:induction false} GroupUpToWellFormed(records: seq<Option<Record>>, n: nat)
    requires 1 <= n <= |records|
    ensures WellFormed(GroupUpTo(records, n))
  {
    if n > 1 {
      GroupUpToWellFormed(records, n - 1);
      match records[n - 1]
      case None =>
      case Some(item) => GroupStepKeeps(GroupUpTo(records, n - 1), item, n - 1);
    }
  }

  /** The worksheets of the grouping, in the order their keys first appeared. */
  function Values(keys: seq<string>, sheets: map<string, Worksheet>): (values: seq<Worksheet>)
    requires forall k :: k in keys ==> k in sheets
    ensures |values| == |keys|
    ensures forall i :: 0 <= i < |keys| ==> values[i] == sheets[keys[i]]
  {
    if keys == [] then [] else [sheets[keys[0]]] + Values(keys[1..], sheets)
  }

  /** What `parseWorksheetTSV(tsvText)` returns. */
  function ParseWorksheets(tsvText: string): seq<Worksheet> {
    var rows := Split(tsvText, '\n');
    if |rows| < 2 then []
    else
      var records := LineRecords(rows, HeaderKeys(rows[0], "_"));
      var g := GroupUpTo(records, |records|);
      GroupUpToWellFormed(records, |records|);
      Values(g.keys, g.sheets)
  }

  /** One option cell: appended when non-empty. */
  method PushIfSet(options: seq<string>, item: Record, key: string) returns (options': seq<string>)
    ensures options' == options + CollectOptions(item, [key])
  {
    options' := options;
    if Get(item, key) != "" {
      options' := options' + [Get(item, key)];
    }
  }

  /** The `options.push` sequence for a multiple-choice question. */
  method AnswerOptions(item: Record) returns (options: seq<string>)
    ensures options == CollectOptions(item, OptionKeys)
  {
    options := [];
    options := PushIfSet(options, item, OptionKeys[0]);
    options := PushIfSet(options, item, OptionKeys[1]);
    options := PushIfSet(options, item, OptionKeys[2]);
    options := PushIfSet(options, item, OptionKeys[3]);
    CollectFourOptions(item, OptionKeys);
  }

  /** The body of the loop of `parseWorksheetTSV` for one non-blank line:
      creates the worksheet of a new key, then appends the line's question. */
  method AddLine(order: seq<string>, worksheetsMap: map<string, Worksheet>, item: Record, i: nat)
    returns (order': seq<string>, worksheetsMap': map<string, Worksheet>)
    ensures Grouping(order', worksheetsMap') == GroupStep(Grouping(order, worksheetsMap), item, i)
  {
    order', worksheetsMap' := order, worksheetsMap;
    var id := OrElse(Get(item, "id_bai_tap"), Get(item, "id"));
    if id == "" {
      return;
    }
    if id !in worksheetsMap' {
      worksheetsMap' := worksheetsMap'[id := Worksheet(id, OrElse(OrElse(Get(item, "tieu_de_bai_tap"), Get(item, "title")), DefaultTitle), None, None, [])];
      order' := order' + [id];
    }
    var ws := worksheetsMap'[id];
    var questionText := Get(item, "cau_hoi");
    if questionText != "" {
      var typeRaw := OrElse(Get(item, "loai_cau_hoi"), DefaultKind);
      var kind := if ToLower(typeRaw) == FreeTextKind then FreeText else MultipleChoice;
      var options: seq<string> := [];
      if kind == MultipleChoice {
        options := AnswerOptions(item);
      }
      var question := Question(
        id := "q-" + id + "-" + NatToString(i),
        text := questionText,
        kind := kind,
        options := if kind == MultipleChoice then Some(options) else None,
        correctAnswer := OrElse(Get(item, "dap_an_dung"), ""),
        explanation := Some(OrElse(Get(item, "giai_thich"), "")));
      worksheetsMap' := worksheetsMap'[id := ws.(questions := ws.questions + [question])];
    }
  }

  /** The loop of `parseWorksheetTSV` over lines 1 to the end. */
  method GroupLines(rows: seq<string>, headers: seq<string>) returns (order: seq<string>, worksheetsMap: map<string, Worksheet>)
    requires 1 <= |rows|
    ensures Grouping(order, worksheetsMap) == GroupUpTo(LineRecords(rows, headers), |rows|)
  {
    ghost var records := LineRecords(rows, headers);
    order, worksheetsMap := [], map[];
    for i := 1 to |rows|
      invariant Grouping(order, worksheetsMap) == GroupUpTo(records, i)
    {
      var row := Split(rows[i], '\t');
      if IsBlankLine(row) {
        continue;
      }
      var item := BuildRecord(headers, row);
      order, worksheetsMap := AddLine(order, worksheetsMap, item, i);
    }
  }

  /** `parseWorksheetTSV`: group the lines, then list the worksheets in key order. */
  method ParseWorksheetTSV(tsvText: string) returns (worksheets: seq<Worksheet>)
    ensures worksheets == ParseWorksheets(tsvText)
  {
    var rows := Split(tsvText, '\n');
    if |rows| < 2 {
      return [];
    }
    var headers := HeaderKeys(rows[0], "_");
    var order, worksheetsMap := GroupLines(rows, headers);
    GroupUpToWellFormed(LineRecords(rows, headers), |rows|);
    worksheets := Values(order, worksheetsMap);
  }

  // ---------------------------------------------------------------------------
  // properties of the specification

  /** Text with no line break (fewer than two lines) gives no worksheets. */
  lemma ParseWorksheetsSingleLine(tsvText: string)
    requires '\n' !in tsvText
    ensures ParseWorksheets(tsvText) == []
  {
    SplitSingle(tsvText, '\n');
  }

  /** The worksheets come out with pairwise distinct ids. */
  lemma ParseWorksheetsDistinctIds(tsvText: string)
    ensures forall i, j :: 0 <= i < j < |ParseWorksheets(tsvText)| ==>
      ParseWorksheets(tsvText)[i].id != ParseWorksheets(tsvText)[j].id
  {
    var rows := Split(tsvText, '\n');
    if |rows| >= 2 {
      GroupUpToWellFormed(LineRecords(rows, HeaderKeys(rows[0], "_")), |rows|);
    }
  }

  /** The worksheet key of line `i`, or "" when the line is blank or has none. */
  function LineKey(records: seq<Option<Record>>, i: nat): string
    requires i < |records|
  {
    match records[i]
    case None => ""
    case Some(item) => WorksheetKey(item)
  }

  /** The keys of lines 1 to n - 1, repeats included, skipping lines without one. */
  function KeysUpTo(records: seq<Option<Record>>, n: nat): seq<string>
    requires 1 <= n <= |records|
  {
    if n == 1 then []
    else KeysUpTo(records, n - 1) + (if LineKey(records, n - 1) != "" then [LineKey(records, n - 1)] else [])
  }

  /** The distinct elements of `s`, each at its first occurrence. */
  function Dedup(s: seq<string>): (d: seq<string>)
    ensures forall i, j :: 0 <= i < j < |d| ==> d[i] != d[j]
    ensures forall x :: x in d <==> x in s
  {
    if s == [] then []
    else
      var prev := Dedup(s[..|s| - 1]);
      assert forall x :: x in s <==> x in s[..|s| - 1] || x == s[|s| - 1];
      if s[|s| - 1] in prev then prev else prev + [s[|s| - 1]]
  }

  /** Dedup keeps first-occurrence order: deduplicating a prefix gives a prefix. */
  lemma {:induction false} DedupPrefix(s: seq<string>, m: nat)
    requires m <= |s|
    ensures Dedup(s[..m]) <= Dedup(s)
    decreases |s| - m
  {
    if m < |s| {
      var init := s[..|s| - 1];
      assert init[..m] == s[..m];
      DedupPrefix(init, m);
    } else {
      assert s[..m] == s;
    }
  }

  /** The map's keys, in insertion order, are the lines' keys with repeats
      dropped: keys appear in the order they are first seen. */
  lemma {:induction false} GroupKeysFirstSeen(records: seq<Option<Record>>, n: nat)
    requires 1 <= n <= |records|
    ensures GroupUpTo(records, n).keys == Dedup(KeysUpTo(records, n))
  {
    if n > 1 {
      GroupKeysFirstSeen(records, n - 1);
      GroupUpToWellFormed(records, n - 1);
      var g := GroupUpTo(records, n - 1);
      var s := KeysUpTo(records, n - 1);
      match records[n - 1]
      case None =>
        assert GroupUpTo(records, n) == g;
        assert KeysUpTo(records, n) == s;
      case Some(item) =>
        assert GroupUpTo(records, n) == GroupStep(g, item, n - 1);
        var key := WorksheetKey(item);
        assert key == LineKey(records, n - 1);
        GroupStepKeeps(g, item, n - 1);
        if key != "" {
          assert KeysUpTo(records, n) == s + [key];
          assert (s + [key])[..|s|] == s;
        } else {
          assert KeysUpTo(records, n) == s;
        }
    }
  }

  /** No line before `n` has key `k`, so the map has no worksheet for it. */
  lemma {:induction false} KeyAbsent(records: seq<Option<Record>>, n: nat, k: string)
    requires 1 <= n <= |records|
    requires forall j :: 1 <= j < n ==> LineKey(records, j) != k
    ensures k !in GroupUpTo(records, n).sheets
  {
    if n > 1 {
      KeyAbsent(records, n - 1, k);
      var g := GroupUpTo(records, n - 1);
      match records[n - 1]
      case None =>
        assert GroupUpTo(records, n) == g;
      case Some(item) =>
        assert GroupUpTo(records, n) == GroupStep(g, item, n - 1);
        assert WorksheetKey(item) == LineKey(records, n - 1);
        GroupStepKeeps(g, item, n - 1);
    }
  }

  /** A worksheet's title is set by the first line carrying its key, and later
      lines never change it. */
  lemma {:induction false} TitleFromFirstLine(records: seq<Option<Record>>, i: nat, n: nat)
    requires 1 <= i < n <= |records|
    requires records[i].Some? && LineKey(records, i) != ""
    requires forall j :: 1 <= j < i ==> LineKey(records, j) != LineKey(records, i)
    ensures LineKey(records, i) in GroupUpTo(records, n).sheets
    ensures GroupUpTo(records, n).sheets[LineKey(records, i)].title
      == WorksheetTitle(records[i].value)
  {
    var k := LineKey(records, i);
    if i == n - 1 {
      KeyAbsent(records, i, k);
      var item := records[i].value;
      assert GroupUpTo(records, n) == GroupStep(GroupUpTo(records, i), item, i);
      assert WorksheetKey(item) == k;
      GroupStepKeeps(GroupUpTo(records, i), item, i);
    } else {
      TitleFromFirstLine(records, i, n - 1);
      var g := GroupUpTo(records, n - 1);
      match records[n - 1]
      case None =>
        assert GroupUpTo(records, n) == g;
      case Some(item) =>
        assert GroupUpTo(records, n) == GroupStep(g, item, n - 1);
        GroupStepKeeps(g, item, n - 1);
    }
  }

  /** The question line `i` contributes to worksheet `k`, if any. */
  function LineQuestion(records: seq<Option<Record>>, k: string, i: nat): seq<Question>
    requires i < |records|
  {
    match records[i]
    case None => []
    case Some(item) =>
      if WorksheetKey(item) == k then
        match QuestionOf(item, k, i)
        case None => []
        case Some(q) => [q]
      else []
  }

  /** The questions of the lines 1 to n - 1 whose key is `k`, in line order. */
  function QuestionsFor(records: seq<Option<Record>>, k: string, n: nat): seq<Question>
    requires 1 <= n <= |records|
  {
    if n == 1 then [] else QuestionsFor(records, k, n - 1) + LineQuestion(records, k, n - 1)
  }

  /** Grouping through the map gives every worksheet exactly the questions of
      its own lines, in line order; a key not in the map has no questions. */
  lemma {:induction false} GroupedQuestions(records: seq<Option<Record>>, k: string, n: nat)
    requires 1 <= n <= |records| && k != ""
    ensures k in GroupUpTo(records, n).sheets ==>
      GroupUpTo(records, n).sheets[k].questions == QuestionsFor(records, k, n)
    ensures k !in GroupUpTo(records, n).sheets ==> QuestionsFor(records, k, n) == []
  {
    if n > 1 {
      GroupedQuestions(records, k, n - 1);
      var g := GroupUpTo(records, n - 1);
      match records[n - 1]
      case None =>
        assert GroupUpTo(records, n) == g;
        assert LineQuestion(records, k, n - 1) == [];
      case Some(item) =>
        assert GroupUpTo(records, n) == GroupStep(g, item, n - 1);
        GroupStepKeeps(g, item, n - 1);
    }
  }

  /** Every question of worksheet `k` among lines 1 to n - 1 comes from one of
      those lines, and no two of them share an id. */
  lemma {:induction false} QuestionsForIds(records: seq<Option<Record>>, k: string, n: nat)
    requires 1 <= n <= |records|
    ensures forall q :: q in QuestionsFor(records, k, n) ==> exists i :: 1 <= i < n && q.id == QuestionId(k, i)
    ensures forall a, b :: 0 <= a < b < |QuestionsFor(records, k, n)| ==>
      QuestionsFor(records, k, n)[a].id != QuestionsFor(records, k, n)[b].id
  {
    if n > 1 {
      QuestionsForIds(records, k, n - 1);
      var prev := QuestionsFor(records, k, n - 1);
      var extra := LineQuestion(records, k, n - 1);
      assert forall q :: q in extra ==> q.id == QuestionId(k, n - 1);
      forall q | q in prev
        ensures q.id != QuestionId(k, n - 1)
      {
        var i :| 1 <= i < n - 1 && q.id == QuestionId(k, i);
        if q.id == QuestionId(k, n - 1) {
          QuestionIdInjective(k, i, n - 1);
        }
      }
      var all := prev + extra;
      forall a, b | 0 <= a < b < |all|
        ensures all[a].id != all[b].id
      {
        if b >= |prev| {
          assert all[b] in extra && all[a] in prev;
        }
      }
    }
  }

  /** The questions of every parsed worksheet have pairwise distinct ids. */
  lemma ParsedQuestionIdsDistinct(tsvText: string, w: Worksheet)
    requires w in ParseWorksheets(tsvText)
    ensures forall a, b :: 0 <= a < b < |w.questions| ==> w.questions[a].id != w.questions[b].id
  {
    var rows := Split(tsvText, '\n');
    var records := LineRecords(rows, HeaderKeys(rows[0], "_"));
    var g := GroupUpTo(records, |records|);
    GroupUpToWellFormed(records, |records|);
    var values := Values(g.keys, g.sheets);
    var i :| 0 <= i < |values| && values[i] == w;
    var k := g.keys[i];
    assert w == g.sheets[k] && k != "";
    GroupedQuestions(records, k, |records|);
    QuestionsForIds(records, k, |records|);
  }
}
