/**
 * The Notion statistics route: each page of the short-video database is
 * filed under its status name and counted, its custom id is collected, and
 * the latest edit time is kept; the answer is the per-status counts and id
 * lists, their total and the latest edit. The database's answers to the
 * paginated query are a parameter, one per request, in order.
 */
module NotionStats {
  import opened Wrappers
  import opened Text
  import opened Seqs

  /** `p?.status?.name` and `p?.select?.name` of the page's `Status` property (`None`: null or missing). */
  datatype StatusProp = StatusProp(status: Option<string>, select: Option<string>)

  /**
   * The page's `ID` property: a number, the `plain_text` of each `title` and
   * `rich_text` element ("" when an element has none; `None` when the field
   * is not an array), and the `unique_id` number.
   */
  datatype IdProp = IdProp(number: Option<int>, title: Option<seq<string>>, richText: Option<seq<string>>, uniqueId: Option<int>)

  /** A time field: null or missing, or a text that `Date.parse` reads as a time value (`None`: NaN). */
  datatype Stamp = Missing | Text(time: Option<int>)

  datatype Page = Page(id: string, status: StatusProp, idProp: Option<IdProp>, lastEditedTime: Stamp, createdTime: Stamp)

  /**
   * `getStatusName`: the status name, or failing that the select name, or
   * "Unknown"; whichever is chosen, an empty name reads as "Unknown". An empty
   * status name does not fall back to the select name.
   */
  function StatusName(p: StatusProp): (name: string)
    ensures name != []
    ensures p.status.Some? && p.status.value != [] ==> name == p.status.value
    ensures p.status.None? && p.select.Some? && p.select.value != [] ==> name == p.select.value
    ensures p.status == Some([]) || (p.status.None? && p.select.GetOr([]) == []) ==> name == "Unknown"
  {
    var name := if p.status.Some? then p.status.value else if p.select.Some? then p.select.value else "Unknown";
    if name == [] then "Unknown" else name
  }

  /** The first element's text, when the field is an array whose first element has a non-empty text. */
  function FirstText(texts: Option<seq<string>>): (r: Option<string>)
    ensures r.Some? <==> texts.Some? && |texts.value| > 0 && texts.value[0] != []
    ensures r.Some? ==> r.value == texts.value[0]
  {
    if texts.Some? && |texts.value| > 0 && texts.value[0] != [] then Some(texts.value[0]) else None
  }

  /**
   * `getCustomId`: without an `ID` property the Notion page id; otherwise the
   * first of number, title text, rich text and unique-id number that is
   * present, and the page id when none is.
   */
  function CustomId(page: Page): (id: string)
    ensures page.idProp.None? ==> id == page.id
    ensures page.id != [] ==> id != []
    ensures id == page.id
            || (page.idProp.Some? && page.idProp.value.number.Some? && id == IntToString(page.idProp.value.number.value))
            || (page.idProp.Some? && FirstText(page.idProp.value.title) == Some(id))
            || (page.idProp.Some? && FirstText(page.idProp.value.richText) == Some(id))
            || (page.idProp.Some? && page.idProp.value.uniqueId.Some? && id == IntToString(page.idProp.value.uniqueId.value))
  {
    match page.idProp
    case None => page.id
    case Some(p) =>
      if p.number.Some? then IntToString(p.number.value)
      else if FirstText(p.title).Some? then FirstText(p.title).value
      else if FirstText(p.richText).Some? then FirstText(p.richText).value
      else if p.uniqueId.Some? then IntToString(p.uniqueId.value)
      else page.id
  }

  /** A number in the `ID` property wins over every text. */
  lemma NumberFirst(page: Page)
    requires page.idProp.Some? && page.idProp.value.number.Some?
    ensures CustomId(page) == IntToString(page.idProp.value.number.value)
  {
  }

  /** The title text wins over the rich text and the unique id. */
  lemma TitleBeforeRichText(page: Page, t: string)
    requires page.idProp.Some? && page.idProp.value.number.None?
    requires FirstText(page.idProp.value.title) == Some(t)
    ensures CustomId(page) == t
  {
  }

  /** Without a number or a title text, the rich text wins over the unique id. */
  lemma RichTextBeforeUniqueId(page: Page, t: string)
    requires page.idProp.Some? && page.idProp.value.number.None?
    requires FirstText(page.idProp.value.title).None? && FirstText(page.idProp.value.richText) == Some(t)
    ensures CustomId(page) == t
  {
  }

  /** The unique id is taken only when no number and no text gives a value. */
  lemma UniqueIdAfterTexts(page: Page, n: int)
    requires page.idProp.Some? && page.idProp.value.number.None?
    requires FirstText(page.idProp.value.title).None? && FirstText(page.idProp.value.richText).None?
    requires page.idProp.value.uniqueId == Some(n)
    ensures CustomId(page) == IntToString(n)
  {
  }

  /** An `ID` property none of whose four fields gives a value falls back to the page id. */
  lemma NoCandidateGivesPageId(page: Page)
    requires page.idProp.Some? && page.idProp.value.number.None? && page.idProp.value.uniqueId.None?
    requires FirstText(page.idProp.value.title).None? && FirstText(page.idProp.value.richText).None?
    ensures CustomId(page) == page.id
  {
  }

  /** `Date.parse(page.last_edited_time ?? page.created_time ?? '')`; `None` is NaN. */
  function EditTime(page: Page): (t: Option<int>)
    ensures page.lastEditedTime.Text? ==> t == page.lastEditedTime.time
    ensures page.lastEditedTime.Missing? && page.createdTime.Text? ==> t == page.createdTime.time
    ensures page.lastEditedTime.Missing? && page.createdTime.Missing? ==> t.None?
  {
    match page.lastEditedTime
    case Text(t) => t
    case Missing =>
      match page.createdTime
      case Text(t) => t
      case Missing => None
  }

  // ---- the grouping, specified page by page ----

  /** The custom ids of the pages filed under status `s`, in page order. */
  function Ids(pages: seq<Page>, s: string): (ids: seq<string>)
    ensures |ids| <= |pages|
    decreases |pages|
  {
    if pages == [] then []
    else
      var p := pages[|pages| - 1];
      Ids(Init(pages), s) + (if StatusName(p.status) == s then [CustomId(p)] else [])
  }

  /** The distinct status names of the pages, in order of first appearance. */
  function Statuses(pages: seq<Page>): (ss: seq<string>)
    ensures forall i, j :: 0 <= i < j < |ss| ==> ss[i] != ss[j]
    decreases |pages|
  {
    if pages == [] then []
    else
      var st := StatusName(pages[|pages| - 1].status);
      var before := Statuses(Init(pages));
      if st in before then before else before + [st]
  }

  /** The statuses listed are exactly those some page has. */
  lemma {:induction false} StatusesExactly(pages: seq<Page>)
    ensures forall s :: s in Statuses(pages) <==> exists p :: p in pages && StatusName(p.status) == s
    decreases |pages|
  {
    if pages != [] {
      var p := pages[|pages| - 1];
      assert forall q :: q in pages <==> q in Init(pages) || q == p;
      StatusesExactly(Init(pages));
    }
  }

  /** The largest parseable edit time of the pages, and 0 when none is larger. */
  function Latest(pages: seq<Page>): (t: int)
    ensures t >= 0
    decreases |pages|
  {
    if pages == [] then 0
    else
      var ts := EditTime(pages[|pages| - 1]);
      var before := Latest(Init(pages));
      if ts.Some? && ts.value > before then ts.value else before
  }

  /** `Latest` is the largest edit time that is positive, or 0. */
  lemma {:induction false} LatestIsMax(pages: seq<Page>)
    ensures forall p :: p in pages && EditTime(p).Some? ==> EditTime(p).value <= Latest(pages)
    ensures Latest(pages) == 0 || exists p :: p in pages && EditTime(p) == Some(Latest(pages))
    decreases |pages|
  {
    if pages != [] {
      var p := pages[|pages| - 1];
      assert forall q :: q in pages <==> q in Init(pages) || q == p;
      LatestIsMax(Init(pages));
    }
  }

  /** The sum of the counts of the listed statuses: `Object.values(byStatus).reduce(+)`. */
  function Sum(keys: seq<string>, counts: map<string, int>): int
    decreases |keys|
  {
    if keys == [] then 0
    else Sum(Init(keys), counts) + (if keys[|keys| - 1] in counts then counts[keys[|keys| - 1]] else 0)
  }

  /** The route's running state: counts, id lists, the statuses in insertion order, and the latest edit. */
  datatype Tally = Tally(byStatus: map<string, int>, itemsByStatus: map<string, seq<string>>, order: seq<string>, lastEdited: int)

  /** Every status in the order has a count and an id list, and nothing else has. */
  ghost predicate KeysOf(t: Tally) {
    && (forall s :: s in t.byStatus <==> s in t.order)
    && (forall s :: s in t.itemsByStatus <==> s in t.order)
  }

  /** Each status's list holds the ids of its pages in order, and its count is the list's length. */
  ghost predicate ListsOf(t: Tally, pages: seq<Page>) {
    && (forall s :: s in t.itemsByStatus ==> t.itemsByStatus[s] == Ids(pages, s))
    && (forall s :: s in t.byStatus ==> t.byStatus[s] == |Ids(pages, s)|)
  }

  /**
   * `t` is what the loop holds after `pages`: one count and one id list per
   * status that occurs, the count the length of the list, the list the ids of
   * that status's pages in order, the counts adding up to the number of
   * pages, and the latest edit time.
   */
  ghost predicate TallyOf(t: Tally, pages: seq<Page>) {
    && t.order == Statuses(pages)
    && KeysOf(t)
    && ListsOf(t, pages)
    && Sum(t.order, t.byStatus) == |pages|
    && t.lastEdited == Latest(pages)
  }

  const Empty := Tally(map[], map[], [], 0)

  /** The body of the route's loop for one page. */
  function Added(t: Tally, page: Page): Tally {
    var status := StatusName(page.status);
    var count := (if status in t.byStatus then t.byStatus[status] else 0) + 1;
    var known := status in t.itemsByStatus;
    var items := if known then t.itemsByStatus else t.itemsByStatus[status := []];
    var ts := EditTime(page);
    Tally(
      t.byStatus[status := count],
      items[status := items[status] + [CustomId(page)]],
      if known then t.order else t.order + [status],
      if ts.Some? && ts.value > t.lastEdited then ts.value else t.lastEdited)
  }

  lemma SumBump(keys: seq<string>, counts: map<string, int>, s: string, v: int)
    requires forall i, j :: 0 <= i < j < |keys| ==> keys[i] != keys[j]
    requires s in keys && s in counts
    ensures Sum(keys, counts[s := v]) == Sum(keys, counts) - counts[s] + v
    decreases |keys|
  {
    var last := keys[|keys| - 1];
    if last != s {
      SumBump(Init(keys), counts, s, v);
    } else {
      assert s !in Init(keys);
      SumFresh(Init(keys), counts, s, v);
    }
  }

  lemma SumFresh(keys: seq<string>, counts: map<string, int>, s: string, v: int)
    requires s !in keys
    ensures Sum(keys, counts[s := v]) == Sum(keys, counts)
    decreases |keys|
  {
    if keys != [] {
      SumFresh(Init(keys), counts, s, v);
    }
  }

  lemma IdsSnoc(pages: seq<Page>, page: Page, s: string)
    ensures Ids(pages + [page], s) == Ids(pages, s) + (if StatusName(page.status) == s then [CustomId(page)] else [])
  {
    SnocInit(pages, page);
  }

  lemma StatusesSnoc(pages: seq<Page>, page: Page)
    ensures var st := StatusName(page.status);
            Statuses(pages + [page]) == if st in Statuses(pages) then Statuses(pages) else Statuses(pages) + [st]
  {
    SnocInit(pages, page);
  }

  lemma LatestSnoc(pages: seq<Page>, page: Page)
    ensures var ts := EditTime(page);
            Latest(pages + [page]) == if ts.Some? && ts.value > Latest(pages) then ts.value else Latest(pages)
  {
    SnocInit(pages, page);
  }

  lemma KeysStep(t: Tally, page: Page)
    requires KeysOf(t)
    ensures KeysOf(Added(t, page))
  {
  }

  /** A status no page has collects no ids. */
  lemma {:induction false} IdsAbsent(pages: seq<Page>, s: string)
    requires s !in Statuses(pages)
    ensures Ids(pages, s) == []
    decreases |pages|
  {
    if pages != [] {
      assert forall q :: q in Init(pages) ==> q in pages;
      IdsAbsent(Init(pages), s);
    }
  }

  lemma ListsStep(t: Tally, pages: seq<Page>, page: Page)
    requires t.order == Statuses(pages) && KeysOf(t) && ListsOf(t, pages)
    ensures ListsOf(Added(t, page), pages + [page])
  {
    var a := Added(t, page);
    forall s | s in a.itemsByStatus
      ensures a.itemsByStatus[s] == Ids(pages + [page], s)
    {
      ItemsAt(t, pages, page, s);
    }
    forall s | s in a.byStatus
      ensures a.byStatus[s] == |Ids(pages + [page], s)|
    {
      CountAt(t, pages, page, s);
    }
  }

  lemma ItemsAt(t: Tally, pages: seq<Page>, page: Page, s: string)
    requires t.order == Statuses(pages) && KeysOf(t) && ListsOf(t, pages)
    requires s in Added(t, page).itemsByStatus
    ensures Added(t, page).itemsByStatus[s] == Ids(pages + [page], s)
  {
    IdsSnoc(pages, page, s);
    if s !in t.order {
      IdsAbsent(pages, s);
    }
  }

  lemma CountAt(t: Tally, pages: seq<Page>, page: Page, s: string)
    requires t.order == Statuses(pages) && KeysOf(t) && ListsOf(t, pages)
    requires s in Added(t, page).byStatus
    ensures Added(t, page).byStatus[s] == |Ids(pages + [page], s)|
  {
    IdsSnoc(pages, page, s);
    if s !in t.order {
      IdsAbsent(pages, s);
    }
  }

  lemma SumStep(t: Tally, page: Page)
    requires KeysOf(t) && forall i, j :: 0 <= i < j < |t.order| ==> t.order[i] != t.order[j]
    ensures Sum(Added(t, page).order, Added(t, page).byStatus) == Sum(t.order, t.byStatus) + 1
  {
    var status := StatusName(page.status);
    if status in t.byStatus {
      SumBump(t.order, t.byStatus, status, t.byStatus[status] + 1);
    } else {
      SumFresh(t.order, t.byStatus, status, 1);
      SnocInit(t.order, status);
    }
  }

  /** Counting one more page keeps the tally exact. */
  lemma AddedStep(t: Tally, pages: seq<Page>, page: Page)
    requires TallyOf(t, pages)
    ensures TallyOf(Added(t, page), pages + [page])
  {
    StatusesSnoc(pages, page);
    KeysStep(t, page);
    ListsStep(t, pages, page);
    SumStep(t, page);
    LatestSnoc(pages, page);
  }

  /** The loop over the results of one answer. */
  method AddPages(t0: Tally, ghost before: seq<Page>, results: seq<Page>) returns (t: Tally)
    requires TallyOf(t0, before)
    ensures TallyOf(t, before + results)
  {
    t := t0;
    var i := 0;
    ghost var seen := before;
    assert before + results[..0] == before;
    while i < |results|
      invariant 0 <= i <= |results|
      invariant seen == before + results[..i]
      invariant TallyOf(t, seen)
    {
      AddedStep(t, seen, results[i]);
      TakeOneMore(results, i);
      AppendAssoc(before, results[..i], [results[i]]);
      t := Added(t, results[i]);
      seen := seen + [results[i]];
      i := i + 1;
    }
    assert results[..i] == results;
  }

  // ---- the route ----

  /** One answer of the paginated query: a non-ok answer with its text, or the `results` of an ok one. */
  datatype Answer = NotOk(text: string) | Ok(results: Option<seq<Page>>)

  /** The pages of the ok answers, in order (`data.results ?? []`). */
  function AnsweredPages(answers: seq<Answer>): seq<Page>
    decreases |answers|
  {
    if answers == [] then []
    else
      var a := answers[|answers| - 1];
      AnsweredPages(Init(answers)) + (if a.Ok? then a.results.GetOr([]) else [])
  }

  lemma AnsweredOneMore(answers: seq<Answer>, j: nat)
    requires j < |answers| && answers[j].Ok?
    ensures AnsweredPages(answers[..j + 1]) == AnsweredPages(answers[..j]) + answers[j].results.GetOr([])
  {
    assert answers[..j + 1] == answers[..j] + [answers[j]];
    SnocInit(answers[..j], answers[j]);
  }

  /** The text of the first non-ok answer, if any. */
  function FirstFailure(answers: seq<Answer>): (r: Option<string>)
    ensures r.None? <==> forall i :: 0 <= i < |answers| ==> answers[i].Ok?
    decreases |answers|
  {
    if answers == [] then None
    else if answers[0].NotOk? then Some(answers[0].text)
    else FirstFailure(answers[1..])
  }

  /** What the route answers: the statistics as JSON (times in milliseconds), or an error status with its text. */
  datatype Reply = Stats(total: int, byStatus: map<string, int>, itemsByStatus: map<string, seq<string>>, lastUpdated: Option<int>)
                 | Error(status: int, text: string)

  /** `?mock=1`: a fixed sample, stamped with the current time. */
  function MockStats(now: int): (r: Reply)
    ensures r.Stats? && r.byStatus.Keys == r.itemsByStatus.Keys == {"Draft", "Editing", "Published"}
    ensures forall s :: s in r.byStatus ==> r.byStatus[s] == |r.itemsByStatus[s]|
    ensures r.total == Sum(["Draft", "Editing", "Published"], r.byStatus)
  {
    Stats(4, map["Draft" := 1, "Editing" := 1, "Published" := 2],
      map["Draft" := ["101"], "Editing" := ["102"], "Published" := ["103", "104"]], Some(now))
  }

  /** `!dbId || !token`: a missing or empty setting. */
  predicate MissingConfig(dbId: Option<string>, token: Option<string>) {
    dbId.GetOr([]) == [] || token.GetOr([]) == []
  }

  /** The statistics of `pages` as the route sends them; `lastUpdated` is null when no edit time beats 0. */
  ghost predicate StatsOf(r: Reply, pages: seq<Page>) {
    && r.Stats?
    && r.total == |pages|
    && (forall s :: s in r.byStatus <==> s in Statuses(pages))
    && (forall s :: s in r.itemsByStatus <==> s in r.byStatus)
    && (forall s :: s in r.itemsByStatus ==> r.itemsByStatus[s] == Ids(pages, s) && r.byStatus[s] == |Ids(pages, s)|)
    && r.lastUpdated == (if Latest(pages) == 0 then None else Some(Latest(pages)))
  }

  /**
   * `GET`: the mock sample when asked for; 500 without the database id or
   * the token, before any query; 502 with the text of the first non-ok
   * answer; otherwise the statistics of every page of every answer.
   */
  method Get(mock: bool, dbId: Option<string>, token: Option<string>, answers: seq<Answer>, now: int) returns (reply: Reply)
    ensures mock ==> reply == MockStats(now)
    ensures !mock && MissingConfig(dbId, token) ==> reply == Error(500, "Missing NOTION_VIDEOS_DB_ID or NOTION_SECRET")
    ensures !mock && !MissingConfig(dbId, token) && FirstFailure(answers).Some?
            ==> reply == Error(502, "Notion error: " + FirstFailure(answers).value)
    ensures !mock && !MissingConfig(dbId, token) && FirstFailure(answers).None?
            ==> StatsOf(reply, AnsweredPages(answers))
  {
    if mock {
      return MockStats(now);
    }
    if MissingConfig(dbId, token) {
      return Error(500, "Missing NOTION_VIDEOS_DB_ID or NOTION_SECRET");
    }
    var t := Empty;
    var j := 0;
    while j < |answers|
      invariant 0 <= j <= |answers|
      invariant FirstFailure(answers) == FirstFailure(answers[j..])
      invariant forall i :: 0 <= i < j ==> answers[i].Ok?
      invariant TallyOf(t, AnsweredPages(answers[..j]))
    {
      assert answers[j..][1..] == answers[j + 1..];
      match answers[j] {
        case NotOk(txt) =>
          return Error(502, "Notion error: " + txt);
        case Ok(results) =>
          AnsweredOneMore(answers, j);
          t := AddPages(t, AnsweredPages(answers[..j]), results.GetOr([]));
      }
      j := j + 1;
    }
    assert answers[..j] == answers;
    reply := Stats(Sum(t.order, t.byStatus), t.byStatus, t.itemsByStatus, if t.lastEdited != 0 then Some(t.lastEdited) else None);
  }
}
